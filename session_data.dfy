/** `extract_session_data.py`: from the decoded entries of one or more session logs to the
    numbered user messages, the session duration, the edited and written files, the
    `git commit` invocations and the per-tool usage counts. */
module SessionData {
  import opened Wrappers
  import opened Strings
  import opened LogEntries

  // ---------------------------------------------------------------------------
  // Text of a message

  /** The `text` of the first text item of a list, if there is one. */
  function FirstText(parts: seq<Part>): Option<string>
    decreases |parts|
  {
    if parts == [] then None
    else if parts[0].TextPart? then Some(parts[0].text)
    else FirstText(parts[1..])
  }

  /** `extract_text_from_content`: a string verbatim, the first text item of a list, or "". */
  function ContentText(c: Content): string
  {
    match c
    case Text(s) => s
    case Parts(ps) => (match FirstText(ps) case Some(t) => t case None => "")
    case NoContent => ""
  }

  lemma {:induction false} FirstTextIsFirst(parts: seq<Part>)
    ensures FirstText(parts).None? <==> forall i :: 0 <= i < |parts| ==> !parts[i].TextPart?
    ensures FirstText(parts).Some? ==>
              exists i :: 0 <= i < |parts| && parts[i] == TextPart(FirstText(parts).value)
                          && forall j :: 0 <= j < i ==> !parts[j].TextPart?
    decreases |parts|
  {
    if parts != [] && !parts[0].TextPart? {
      FirstTextIsFirst(parts[1..]);
      assert forall i :: 0 < i < |parts| ==> parts[1..][i - 1] == parts[i];
      if FirstText(parts).Some? {
        var i :| 0 <= i < |parts| - 1 && parts[1..][i] == TextPart(FirstText(parts).value)
                 && forall j :: 0 <= j < i ==> !parts[1..][j].TextPart?;
        assert parts[i + 1] == parts[1..][i];
        assert forall j :: 0 < j < i + 1 ==> parts[j] == parts[1..][j - 1];
      }
    }
  }

  /** A string is returned verbatim; a list gives the text of its first text item, ignoring
      everything after it, or "" when it has none; anything else gives "". */
  lemma ContentTextCases(c: Content)
    ensures c.Text? ==> ContentText(c) == c.text
    ensures c.NoContent? ==> ContentText(c) == ""
    ensures c.Parts? && (forall i :: 0 <= i < |c.parts| ==> !c.parts[i].TextPart?) ==> ContentText(c) == ""
    ensures c.Parts? ==> forall i ::
              (0 <= i < |c.parts| && c.parts[i].TextPart? && (forall j :: 0 <= j < i ==> !c.parts[j].TextPart?)) ==>
              ContentText(c) == c.parts[i].text
  {
    if c.Parts? {
      FirstTextIsFirst(c.parts);
      forall i | 0 <= i < |c.parts| && c.parts[i].TextPart? && (forall j :: 0 <= j < i ==> !c.parts[j].TextPart?)
        ensures ContentText(c) == c.parts[i].text
      {
        var k :| 0 <= k < |c.parts| && c.parts[k] == TextPart(FirstText(c.parts).value)
                 && forall j :: 0 <= j < k ==> !c.parts[j].TextPart?;
        assert k == i;
      }
    }
  }

  /** `is_system_message`. */
  predicate IsSystemMessage(text: string)
  {
    || text == ""
    || "/" <= text
    || "<command-" <= text
    || "<local-command-" <= text
    || "Caveat:" <= text
    || Contains(text, "<system-reminder>")
  }

  /** Text appended to a system message never turns it into a user message: every test
      looks at a prefix or for a substring. */
  lemma SystemMessageExtends(text: string, more: string)
    requires text != [] && IsSystemMessage(text)
    ensures IsSystemMessage(text + more)
  {
    if Contains(text, "<system-reminder>") {
      assert (text + more)[..|text|] == text;
      ContainsWithin(text + more, "<system-reminder>", 0, |text|);
    }
  }

  /** A message is kept when it is not empty and passes none of the system tests. */
  lemma KeptMessageShape(text: string)
    requires !IsSystemMessage(text)
    ensures text != [] && text[0] != '/'
    ensures !Contains(text, "<system-reminder>")
  {
  }

  // ---------------------------------------------------------------------------
  // User messages

  /** Whether an entry contributes a user message. */
  predicate Keeps(e: Entry)
  {
    e.role == User && ContentText(e.content) != "" && !IsSystemMessage(ContentText(e.content))
  }

  /** The entries that contribute user messages, in log order. */
  function KeptEntries(entries: seq<Entry>): seq<Entry>
    decreases |entries|
  {
    if entries == [] then []
    else
      var init := KeptEntries(entries[..|entries| - 1]);
      if Keeps(entries[|entries| - 1]) then init + [entries[|entries| - 1]] else init
  }

  lemma KeptEntriesStep(entries: seq<Entry>, i: nat)
    requires i < |entries|
    ensures KeptEntries(entries[..i + 1])
         == KeptEntries(entries[..i]) + (if Keeps(entries[i]) then [entries[i]] else [])
  {
    assert entries[..i + 1][..i] == entries[..i];
  }

  /** The kept entries are exactly the user entries with non-system text, each kept once per
      occurrence and in log order. */
  lemma {:induction false} KeptEntriesFilter(entries: seq<Entry>)
    ensures forall e :: e in KeptEntries(entries) <==> e in entries && Keeps(e)
    ensures |KeptEntries(entries)| <= |entries|
    decreases |entries|
  {
    if entries != [] {
      var n := |entries| - 1;
      KeptEntriesFilter(entries[..n]);
      assert entries == entries[..n] + [entries[n]];
    }
  }

  datatype UserMessage = UserMessage(timestamp: Option<int>, text: string, number: nat)

  /** Collects the user messages, numbering each with the count so far plus one. */
  method CollectUserMessages(entries: seq<Entry>) returns (msgs: seq<UserMessage>)
    ensures |msgs| == |KeptEntries(entries)|
    ensures forall k :: 0 <= k < |msgs| ==>
              msgs[k] == UserMessage(KeptEntries(entries)[k].timestamp, ContentText(KeptEntries(entries)[k].content), k + 1)
  {
    msgs := [];
    var i := 0;
    while i < |entries|
      invariant 0 <= i <= |entries|
      invariant |msgs| == |KeptEntries(entries[..i])|
      invariant forall k :: 0 <= k < |msgs| ==>
                  msgs[k] == UserMessage(KeptEntries(entries[..i])[k].timestamp,
                                         ContentText(KeptEntries(entries[..i])[k].content), k + 1)
    {
      var e := entries[i];
      KeptEntriesStep(entries, i);
      if e.role == User {
        var text := ContentText(e.content);
        if text != "" && !IsSystemMessage(text) {
          msgs := msgs + [UserMessage(e.timestamp, text, |msgs| + 1)];
        }
      }
      i := i + 1;
    }
    assert entries[..i] == entries;
  }

  // ---------------------------------------------------------------------------
  // Duration

  /** The timestamp of the last entry that has one, scanning backward. */
  function LastTimestamp(entries: seq<Entry>): Option<int>
    decreases |entries|
  {
    if entries == [] then None
    else if entries[|entries| - 1].timestamp.Some? then entries[|entries| - 1].timestamp
    else LastTimestamp(entries[..|entries| - 1])
  }

  /** There is no timestamp to find exactly when no entry has one. */
  lemma {:induction false} LastTimestampNone(entries: seq<Entry>)
    ensures LastTimestamp(entries).None? <==> forall i :: 0 <= i < |entries| ==> entries[i].timestamp.None?
    decreases |entries|
  {
    if entries != [] {
      var n := |entries| - 1;
      var init := entries[..n];
      LastTimestampNone(init);
      assert forall i :: 0 <= i < n ==> init[i] == entries[i];
    }
  }

  /** The timestamp found is that of an entry after which no entry has one. */
  lemma {:induction false} LastTimestampIsLast(entries: seq<Entry>)
    ensures LastTimestamp(entries).Some? ==>
              exists i :: 0 <= i < |entries| && entries[i].timestamp == LastTimestamp(entries)
                          && forall j :: i < j < |entries| ==> entries[j].timestamp.None?
    decreases |entries|
  {
    if entries != [] {
      var n := |entries| - 1;
      if entries[n].timestamp.None? {
        var init := entries[..n];
        LastTimestampIsLast(init);
        if LastTimestamp(init).Some? {
          var i :| 0 <= i < n && init[i].timestamp == LastTimestamp(init)
                   && forall j :: i < j < n ==> init[j].timestamp.None?;
          assert entries[i] == init[i];
          assert forall j :: i < j < n ==> entries[j] == init[j];
        }
      }
    }
  }

  /** `(⌊s / 3600⌋, ⌊(s mod 3600) / 60⌋)` with Python's floor division and modulo. */
  function SplitDuration(seconds: int): (r: (int, int))
  {
    (seconds / 3600, (seconds % 3600) / 60)
  }

  /** Whole minutes below an hour, and the pair brackets the span to within a minute, for
      negative spans too. */
  lemma SplitDurationBounds(seconds: int)
    ensures var (h, m) := SplitDuration(seconds);
            && 0 <= m < 60
            && 3600 * h + 60 * m <= seconds < 3600 * h + 60 * m + 60
  {
  }

  /** The bracketing pins the pair down: any hours and minutes meeting it are the split. */
  lemma SplitDurationUnique(seconds: int, h: int, m: int)
    requires 0 <= m < 60 && 3600 * h + 60 * m <= seconds < 3600 * h + 60 * m + 60
    ensures SplitDuration(seconds) == (h, m)
  {
    SplitDurationBounds(seconds);
  }

  /** The result of `calculate_duration`: nothing to measure, or a span. */
  datatype DurationInfo =
    | NoMessages
    | Span(hours: int, minutes: int, start: int, end: int, totalSeconds: int)

  /** The `TypeError` the subtraction raises when either end has no timestamp. */
  datatype SessionError = MissingTimestamp

  /** `calculate_duration(entries, user_messages)`. */
  function CalculateDuration(entries: seq<Entry>, users: seq<UserMessage>): Result<DurationInfo, SessionError>
  {
    if users == [] then Success(NoMessages)
    else
      var start := users[0].timestamp;
      var end := if LastTimestamp(entries).Some? then LastTimestamp(entries) else users[|users| - 1].timestamp;
      if start.None? || end.None? then Failure(MissingTimestamp)
      else
        var seconds := end.value - start.value;
        var (h, m) := SplitDuration(seconds);
        Success(Span(h, m, start.value, end.value, seconds))
  }

  /** The `"{hours}h {minutes}m"` text; no messages read as `0h 0m`. */
  function DurationText(d: DurationInfo): string
  {
    match d
    case NoMessages => "0h 0m"
    case Span(h, m, _, _, _) => IntToString(h) + "h " + IntToString(m) + "m"
  }

  /** The duration text splits at its one space into an hours piece and a minutes piece,
      and the numbers in them read back as the split's hours and minutes (0 and 0 when there
      are no messages). */
  lemma DurationTextReadsBack(d: DurationInfo)
    ensures var (h, m) := if d.Span? then (d.hours, d.minutes) else (0, 0);
            var pieces := Split(DurationText(d), ' ');
            && |pieces| == 2
            && pieces[0] == IntToString(h) + "h" && pieces[1] == IntToString(m) + "m"
            && ParseInt(pieces[0][..|pieces[0]| - 1]) == h
            && ParseInt(pieces[1][..|pieces[1]| - 1]) == m
  {
    var (h, m) := if d.Span? then (d.hours, d.minutes) else (0, 0);
    var a, b := IntToString(h) + "h", IntToString(m) + "m";
    assert DurationText(d) == a + [' '] + b;
    UnitPiece(h, 'h');
    UnitPiece(m, 'm');
    SplitConcat(a, b, ' ');
  }

  /** A number followed by its unit letter has no space, and dropping the letter gives back
      the number. */
  lemma UnitPiece(n: int, unit: char)
    requires unit != ' '
    ensures var p := IntToString(n) + [unit];
            && Split(p, ' ') == [p]
            && p[..|p| - 1] == IntToString(n) && ParseInt(p[..|p| - 1]) == n
  {
    var p := IntToString(n) + [unit];
    assert ' ' !in p;
    SplitNoSeparator(p, ' ');
    assert p[..|p| - 1] == IntToString(n);
    ParseIntToString(n);
  }

  /** On the user messages collected from the same entries: no messages gives `0h 0m`;
      otherwise the span runs from the first message to the last timestamped entry and fails
      exactly when the first message has no timestamp (the fallback to the last message's
      timestamp can never supply an end the backward scan missed). */
  lemma DurationOfSession(entries: seq<Entry>, users: seq<UserMessage>)
    requires |users| == |KeptEntries(entries)|
    requires forall k :: 0 <= k < |users| ==> users[k].timestamp == KeptEntries(entries)[k].timestamp
    ensures users == [] ==> CalculateDuration(entries, users) == Success(NoMessages)
    ensures users != [] ==> (CalculateDuration(entries, users).Failure? <==> users[0].timestamp.None?)
    ensures CalculateDuration(entries, users).Success? && users != [] ==>
              var d := CalculateDuration(entries, users).value;
              && d.Span?
              && d.start == users[0].timestamp.value
              && Some(d.end) == LastTimestamp(entries)
              && d.totalSeconds == d.end - d.start
              && 0 <= d.minutes < 60
              && 3600 * d.hours + 60 * d.minutes <= d.totalSeconds < 3600 * d.hours + 60 * d.minutes + 60
  {
    if users != [] {
      var first := KeptEntries(entries)[0];
      KeptEntriesFilter(entries);
      assert first in KeptEntries(entries);
      LastTimestampNone(entries);
      LastTimestampIsLast(entries);
      if users[0].timestamp.Some? {
        var i :| 0 <= i < |entries| && entries[i] == first;
        assert entries[i].timestamp.Some?;
        SplitDurationBounds(LastTimestamp(entries).value - users[0].timestamp.value);
      }
    }
  }

  // ---------------------------------------------------------------------------
  // Tool calls

  /** One `tool_use` item of an assistant entry, with the entry's timestamp. */
  datatype Call = Call(timestamp: Option<int>, name: Option<string>, input: map<string, string>)

  /** The tool calls among the items of one list content. */
  function PartCalls(ts: Option<int>, parts: seq<Part>): seq<Call>
    decreases |parts|
  {
    if parts == [] then []
    else
      var init := PartCalls(ts, parts[..|parts| - 1]);
      match parts[|parts| - 1]
      case ToolUse(name, input) => init + [Call(ts, name, input)]
      case _ => init
  }

  /** The tool calls of one entry: only assistant entries whose content is a list have any. */
  function EntryCalls(e: Entry): seq<Call>
  {
    if e.role == Assistant && e.content.Parts? then PartCalls(e.timestamp, e.content.parts) else []
  }

  /** All tool calls of the log, in log order. */
  function ToolCalls(entries: seq<Entry>): seq<Call>
    decreases |entries|
  {
    if entries == [] then [] else EntryCalls(entries[0]) + ToolCalls(entries[1..])
  }

  lemma ToolCallsStep(entries: seq<Entry>, i: nat)
    requires i < |entries|
    ensures ToolCalls(entries[..i + 1]) == ToolCalls(entries[..i]) + EntryCalls(entries[i])
  {
    assert entries[..i + 1] == entries[..i] + [entries[i]];
    ToolCallsAppend(entries[..i], [entries[i]]);
    assert [entries[i]][1..] == [];
  }

  lemma PartCallsStep(ts: Option<int>, parts: seq<Part>, j: nat)
    requires j < |parts|
    ensures PartCalls(ts, parts[..j + 1])
         == PartCalls(ts, parts[..j])
          + (if parts[j].ToolUse? then [Call(ts, parts[j].name, parts[j].input)] else [])
  {
    assert parts[..j + 1][..j] == parts[..j];
  }

  /** The calls of one list are its tool-use items, in order, each stamped with `ts`. */
  lemma {:induction false} PartCallsMembers(ts: Option<int>, parts: seq<Part>)
    ensures forall c :: c in PartCalls(ts, parts) <==> c.timestamp == ts && ToolUse(c.name, c.input) in parts
    decreases |parts|
  {
    if parts != [] {
      var n := |parts| - 1;
      PartCallsMembers(ts, parts[..n]);
      assert parts == parts[..n] + [parts[n]];
    }
  }

  /** The calls of logs read one after another are the calls of each, in order. */
  lemma {:induction false} ToolCallsAppend(a: seq<Entry>, b: seq<Entry>)
    ensures ToolCalls(a + b) == ToolCalls(a) + ToolCalls(b)
    decreases |a|
  {
    if a == [] {
      assert a + b == b;
    } else {
      assert (a + b)[1..] == a[1..] + b;
      ToolCallsAppend(a[1..], b);
    }
  }

  // ---------------------------------------------------------------------------
  // Files

  /** Whether a call is a `tool` call with a non-empty `file_path`. */
  predicate TouchesFile(c: Call, tool: string)
  {
    c.name == Some(tool) && "file_path" in c.input && c.input["file_path"] != ""
  }

  /** The non-empty `file_path` inputs of the `tool` calls. */
  function FilePaths(calls: seq<Call>, tool: string): set<string>
    decreases |calls|
  {
    if calls == [] then {}
    else
      var c := calls[|calls| - 1];
      FilePaths(calls[..|calls| - 1], tool) + (if TouchesFile(c, tool) then {c.input["file_path"]} else {})
  }

  lemma {:induction false} FilePathsMembers(calls: seq<Call>, tool: string)
    ensures forall p :: p in FilePaths(calls, tool) <==>
              exists i :: 0 <= i < |calls| && TouchesFile(calls[i], tool) && calls[i].input["file_path"] == p
    decreases |calls|
  {
    if calls != [] {
      var n := |calls| - 1;
      FilePathsMembers(calls[..n], tool);
      forall p ensures p in FilePaths(calls, tool) <==>
                       exists i :: 0 <= i < |calls| && TouchesFile(calls[i], tool) && calls[i].input["file_path"] == p
      {
        if p in FilePaths(calls[..n], tool) {
          var i :| 0 <= i < n && TouchesFile(calls[..n][i], tool) && calls[..n][i].input["file_path"] == p;
          assert calls[i] == calls[..n][i];
        }
        if exists i :: 0 <= i < |calls| && TouchesFile(calls[i], tool) && calls[i].input["file_path"] == p {
          var i :| 0 <= i < |calls| && TouchesFile(calls[i], tool) && calls[i].input["file_path"] == p;
          if i < n {
            assert calls[..n][i] == calls[i];
          }
        }
      }
    }
  }

  lemma FilePathsStep(calls: seq<Call>, c: Call, tool: string)
    ensures FilePaths(calls + [c], tool)
         == FilePaths(calls, tool) + (if TouchesFile(c, tool) then {c.input["file_path"]} else {})
  {
    assert (calls + [c])[..|calls|] == calls;
  }

  lemma {:induction false} FilePathsAppend(a: seq<Call>, b: seq<Call>, tool: string)
    ensures FilePaths(a + b, tool) == FilePaths(a, tool) + FilePaths(b, tool)
    decreases |b|
  {
    if b == [] {
      assert a + b == a;
    } else {
      var n := |b| - 1;
      var ab := a + b;
      assert ab[..|ab| - 1] == a + b[..n];
      assert ab[|ab| - 1] == b[n];
      FilePathsAppend(a, b[..n], tool);
    }
  }

  /** What one more list item adds to the `tool` paths of the list's calls. */
  lemma PartPathsStep(ts: Option<int>, parts: seq<Part>, j: nat, tool: string)
    requires j < |parts|
    ensures FilePaths(PartCalls(ts, parts[..j + 1]), tool)
         == FilePaths(PartCalls(ts, parts[..j]), tool)
          + (if parts[j].ToolUse? && TouchesFile(Call(ts, parts[j].name, parts[j].input), tool)
             then {parts[j].input["file_path"]} else {})
  {
    PartCallsStep(ts, parts, j);
    if parts[j].ToolUse? {
      FilePathsStep(PartCalls(ts, parts[..j]), Call(ts, parts[j].name, parts[j].input), tool);
    } else {
      assert PartCalls(ts, parts[..j]) + [] == PartCalls(ts, parts[..j]);
    }
  }

  /** The inner loop of `extract_files_from_tools` over the items of one list content. */
  method AddFilePaths(ts: Option<int>, parts: seq<Part>, edited: set<string>, written: set<string>)
    returns (edited': set<string>, written': set<string>)
    ensures edited' == edited + FilePaths(PartCalls(ts, parts), "Edit")
    ensures written' == written + FilePaths(PartCalls(ts, parts), "Write")
  {
    edited', written' := edited, written;
    var j := 0;
    assert parts[..0] == [];
    while j < |parts|
      invariant 0 <= j <= |parts|
      invariant edited' == edited + FilePaths(PartCalls(ts, parts[..j]), "Edit")
      invariant written' == written + FilePaths(PartCalls(ts, parts[..j]), "Write")
    {
      PartPathsStep(ts, parts, j, "Edit");
      PartPathsStep(ts, parts, j, "Write");
      if parts[j].ToolUse? {
        var params := parts[j].input;
        if parts[j].name == Some("Edit") {
          if "file_path" in params && params["file_path"] != "" {
            edited' := edited' + {params["file_path"]};
          }
        } else if parts[j].name == Some("Write") {
          if "file_path" in params && params["file_path"] != "" {
            written' := written' + {params["file_path"]};
          }
        }
      }
      j := j + 1;
    }
    assert parts[..j] == parts;
  }

  /** `extract_files_from_tools`: the sorted, duplicate-free paths that `Edit` and `Write`
      calls name. */
  method ExtractFiles(entries: seq<Entry>) returns (modified: seq<string>, created: seq<string>)
    ensures StrictlySorted(modified) && StrictlySorted(created)
    ensures forall p :: p in modified <==> p in FilePaths(ToolCalls(entries), "Edit")
    ensures forall p :: p in created <==> p in FilePaths(ToolCalls(entries), "Write")
  {
    var edited: set<string> := {};
    var written: set<string> := {};
    var i := 0;
    while i < |entries|
      invariant 0 <= i <= |entries|
      invariant edited == FilePaths(ToolCalls(entries[..i]), "Edit")
      invariant written == FilePaths(ToolCalls(entries[..i]), "Write")
    {
      var e := entries[i];
      ToolCallsStep(entries, i);
      FilePathsAppend(ToolCalls(entries[..i]), EntryCalls(e), "Edit");
      FilePathsAppend(ToolCalls(entries[..i]), EntryCalls(e), "Write");
      if e.role == Assistant && e.content.Parts? {
        edited, written := AddFilePaths(e.timestamp, e.content.parts, edited, written);
      }
      i := i + 1;
    }
    assert entries[..i] == entries;
    modified := SortedKeys(edited);
    created := SortedKeys(written);
  }

  // ---------------------------------------------------------------------------
  // Commits

  datatype Commit = Commit(command: string, timestamp: Option<int>)

  /** The `command` input of a call; a missing one reads as "". */
  function Command(c: Call): string
  {
    if "command" in c.input then c.input["command"] else ""
  }

  predicate IsCommit(c: Call)
  {
    c.name == Some("Bash") && Contains(Command(c), "git commit")
  }

  /** The commit records of the calls, in order, each command cut to 200 characters. */
  function CommitsOf(calls: seq<Call>): seq<Commit>
    decreases |calls|
  {
    if calls == [] then []
    else
      var c := calls[|calls| - 1];
      CommitsOf(calls[..|calls| - 1]) + (if IsCommit(c) then [Commit(Take(Command(c), 200), c.timestamp)] else [])
  }

  /** One record per `git commit` call, duplicates kept; each is the first 200 characters of
      the command (the whole command when shorter) with the call's timestamp. */
  lemma {:induction false} CommitsOfCalls(calls: seq<Call>)
    ensures |CommitsOf(calls)| <= |calls|
    ensures forall k :: 0 <= k < |CommitsOf(calls)| ==>
              && |CommitsOf(calls)[k].command| <= 200
              && exists i :: 0 <= i < |calls| && IsCommit(calls[i])
                             && CommitsOf(calls)[k] == Commit(Take(Command(calls[i]), 200), calls[i].timestamp)
    decreases |calls|
  {
    if calls != [] {
      var n := |calls| - 1;
      CommitsOfCalls(calls[..n]);
      var init := CommitsOf(calls[..n]);
      forall k | 0 <= k < |CommitsOf(calls)|
        ensures exists i :: 0 <= i < |calls| && IsCommit(calls[i])
                            && CommitsOf(calls)[k] == Commit(Take(Command(calls[i]), 200), calls[i].timestamp)
      {
        if k < |init| {
          var i :| 0 <= i < n && IsCommit(calls[..n][i])
                   && init[k] == Commit(Take(Command(calls[..n][i]), 200), calls[..n][i].timestamp);
          assert calls[..n][i] == calls[i];
        } else {
          assert IsCommit(calls[n]);
        }
      }
    }
  }

  /** Commits of consecutive stretches of calls concatenate. */
  lemma {:induction false} CommitsOfAppend(a: seq<Call>, b: seq<Call>)
    ensures CommitsOf(a + b) == CommitsOf(a) + CommitsOf(b)
    decreases |b|
  {
    if b == [] {
      assert a + b == a;
    } else {
      var n := |b| - 1;
      assert (a + b)[..|a| + n] == a + b[..n];
      CommitsOfAppend(a, b[..n]);
    }
  }

  /** A `Bash` call mentioning `git commit` with a short command is recorded whole. */
  lemma ShortCommitKept(ts: Option<int>, cmd: string)
    requires |cmd| <= 200 && Contains(cmd, "git commit")
    ensures CommitsOf([Call(ts, Some("Bash"), map["command" := cmd])]) == [Commit(cmd, ts)]
  {
    var c := Call(ts, Some("Bash"), map["command" := cmd]);
    assert [c][..0] == [];
  }

  lemma CommitsOfStep(calls: seq<Call>, c: Call)
    ensures CommitsOf(calls + [c])
         == CommitsOf(calls) + (if IsCommit(c) then [Commit(Take(Command(c), 200), c.timestamp)] else [])
  {
    assert (calls + [c])[..|calls|] == calls;
  }

  /** The inner loop of `extract_commits` over the items of one list content. */
  method AddCommits(ts: Option<int>, parts: seq<Part>, commits: seq<Commit>) returns (commits': seq<Commit>)
    ensures commits' == commits + CommitsOf(PartCalls(ts, parts))
  {
    commits' := commits;
    var j := 0;
    assert parts[..0] == [];
    while j < |parts|
      invariant 0 <= j <= |parts|
      invariant commits' == commits + CommitsOf(PartCalls(ts, parts[..j]))
    {
      PartCallsStep(ts, parts, j);
      ghost var before := PartCalls(ts, parts[..j]);
      if parts[j].ToolUse? {
        var c := Call(ts, parts[j].name, parts[j].input);
        CommitsOfStep(before, c);
        ghost var added := if IsCommit(c) then [Commit(Take(Command(c), 200), c.timestamp)] else [];
        assert commits + CommitsOf(before + [c]) == (commits + CommitsOf(before)) + added;
        if parts[j].name == Some("Bash") {
          var cmd := if "command" in parts[j].input then parts[j].input["command"] else "";
          assert cmd == Command(c);
          if Contains(cmd, "git commit") {
            commits' := commits' + [Commit(Take(cmd, 200), ts)];
          }
        }
      } else {
        assert before + [] == before;
      }
      j := j + 1;
    }
    assert parts[..j] == parts;
  }

  /** `extract_commits`. */
  method ExtractCommits(entries: seq<Entry>) returns (commits: seq<Commit>)
    ensures commits == CommitsOf(ToolCalls(entries))
  {
    commits := [];
    var i := 0;
    while i < |entries|
      invariant 0 <= i <= |entries|
      invariant commits == CommitsOf(ToolCalls(entries[..i]))
    {
      var e := entries[i];
      ToolCallsStep(entries, i);
      CommitsOfAppend(ToolCalls(entries[..i]), EntryCalls(e));
      if e.role == Assistant && e.content.Parts? {
        commits := AddCommits(e.timestamp, e.content.parts, commits);
      }
      i := i + 1;
    }
    assert entries[..i] == entries;
  }

  // ---------------------------------------------------------------------------
  // Tool usage

  /** The names of the calls, `None` for a call without one. */
  function Names(calls: seq<Call>): seq<Option<string>>
    decreases |calls|
  {
    if calls == [] then [] else Names(calls[..|calls| - 1]) + [calls[|calls| - 1].name]
  }

  /** The count of each name, as a dictionary incremented once per occurrence. */
  function Histogram(names: seq<Option<string>>): map<Option<string>, nat>
    decreases |names|
  {
    if names == [] then map[] else Bump(Histogram(names[..|names| - 1]), names[|names| - 1])
  }

  /** `usage[x] += 1` on a dictionary whose missing keys read as 0. */
  function Bump(h: map<Option<string>, nat>, x: Option<string>): map<Option<string>, nat>
  {
    h[x := (if x in h then h[x] else 0) + 1]
  }

  /** Each name that occurs is a key, and its count is its number of occurrences. */
  lemma {:induction false} HistogramCounts(names: seq<Option<string>>)
    ensures forall x :: x in Histogram(names) <==> x in names
    ensures forall x :: x in Histogram(names) ==> Histogram(names)[x] == multiset(names)[x]
    decreases |names|
  {
    if names != [] {
      var n := |names| - 1;
      HistogramCounts(names[..n]);
      assert names == names[..n] + [names[n]];
      assert multiset(names) == multiset(names[..n]) + multiset{names[n]};
    }
  }

  lemma NamesStep(calls: seq<Call>, c: Call)
    ensures Names(calls + [c]) == Names(calls) + [c.name]
  {
    assert (calls + [c])[..|calls|] == calls;
  }

  lemma {:induction false} NamesLength(calls: seq<Call>)
    ensures |Names(calls)| == |calls|
    decreases |calls|
  {
    if calls != [] {
      NamesLength(calls[..|calls| - 1]);
    }
  }

  /** The counts of `tool_usage` add up to the number of tool calls. */
  lemma UsageTotal(calls: seq<Call>)
    ensures |multiset(Names(calls))| == |calls|
  {
    NamesLength(calls);
  }

  lemma {:induction false} NamesAppend(a: seq<Call>, b: seq<Call>)
    ensures Names(a + b) == Names(a) + Names(b)
    decreases |b|
  {
    if b == [] {
      assert a + b == a;
    } else {
      var n := |b| - 1;
      var ab := a + b;
      assert ab[..|ab| - 1] == a + b[..n];
      assert ab[|ab| - 1] == b[n];
      NamesAppend(a, b[..n]);
    }
  }

  /** The inner counting loop over the items of one list content. */
  method CountParts(ts: Option<int>, parts: seq<Part>, usage: map<Option<string>, nat>, ghost seen: seq<Option<string>>)
    returns (usage': map<Option<string>, nat>)
    requires usage == Histogram(seen)
    ensures usage' == Histogram(seen + Names(PartCalls(ts, parts)))
  {
    usage' := usage;
    var j := 0;
    ghost var names := seen;
    assert parts[..0] == [];
    assert seen + [] == seen;
    while j < |parts|
      invariant 0 <= j <= |parts|
      invariant names == seen + Names(PartCalls(ts, parts[..j]))
      invariant usage' == Histogram(names)
    {
      PartCallsStep(ts, parts, j);
      if parts[j].ToolUse? {
        var c := Call(ts, parts[j].name, parts[j].input);
        HistogramExtend(seen, PartCalls(ts, parts[..j]), c);
        names := seen + Names(PartCalls(ts, parts[..j]) + [c]);
        usage' := Bump(usage', c.name);
      } else {
        assert PartCalls(ts, parts[..j]) + [] == PartCalls(ts, parts[..j]);
      }
      j := j + 1;
    }
    assert parts[..j] == parts;
  }

  /** One more call adds one to the count of its name. */
  lemma HistogramExtend(seen: seq<Option<string>>, calls: seq<Call>, c: Call)
    ensures Histogram(seen + Names(calls + [c])) == Bump(Histogram(seen + Names(calls)), c.name)
  {
    NamesStep(calls, c);
    var names := seen + Names(calls);
    assert seen + Names(calls + [c]) == names + [c.name];
    assert (names + [c.name])[..|names|] == names;
  }

  /** The tool-usage counting loop of `extract_session_data`. */
  method CountToolUsage(entries: seq<Entry>) returns (usage: map<Option<string>, nat>)
    ensures usage == Histogram(Names(ToolCalls(entries)))
  {
    usage := map[];
    var i := 0;
    while i < |entries|
      invariant 0 <= i <= |entries|
      invariant usage == Histogram(Names(ToolCalls(entries[..i])))
    {
      var e := entries[i];
      ToolCallsStep(entries, i);
      NamesAppend(ToolCalls(entries[..i]), EntryCalls(e));
      if e.role == Assistant && e.content.Parts? {
        usage := CountParts(e.timestamp, e.content.parts, usage, Names(ToolCalls(entries[..i])));
      } else {
        assert Names(EntryCalls(e)) == [];
        assert Names(ToolCalls(entries[..i])) + [] == Names(ToolCalls(entries[..i]));
      }
      i := i + 1;
    }
    assert entries[..i] == entries;
  }

  // ---------------------------------------------------------------------------
  // The whole record

  datatype SessionRecord = SessionRecord(
    duration: string, span: DurationInfo, totalMessages: nat, userMessages: seq<UserMessage>,
    modified: seq<string>, created: seq<string>, commits: seq<Commit>,
    toolUsage: map<Option<string>, nat>)

  /** `extract_session_data` on the entries of all session files, concatenated. */
  method ExtractSessionData(entries: seq<Entry>) returns (r: Result<SessionRecord, SessionError>)
    ensures r.Failure? <==> KeptEntries(entries) != [] && KeptEntries(entries)[0].timestamp.None?
    ensures r.Success? ==>
              && r.value.totalMessages == |r.value.userMessages| == |KeptEntries(entries)|
              && (forall k :: 0 <= k < |r.value.userMessages| ==>
                    r.value.userMessages[k]
                    == UserMessage(KeptEntries(entries)[k].timestamp, ContentText(KeptEntries(entries)[k].content), k + 1))
              && Success(r.value.span) == CalculateDuration(entries, r.value.userMessages)
              && r.value.duration == DurationText(r.value.span)
              && (forall p :: p in r.value.modified <==> p in FilePaths(ToolCalls(entries), "Edit"))
              && (forall p :: p in r.value.created <==> p in FilePaths(ToolCalls(entries), "Write"))
              && StrictlySorted(r.value.modified) && StrictlySorted(r.value.created)
              && r.value.commits == CommitsOf(ToolCalls(entries))
              && r.value.toolUsage == Histogram(Names(ToolCalls(entries)))
  {
    var users := CollectUserMessages(entries);
    DurationOfSession(entries, users);
    var duration := CalculateDuration(entries, users);
    if duration.Failure? {
      return Failure(duration.error);
    }
    var modified, created := ExtractFiles(entries);
    var commits := ExtractCommits(entries);
    var usage := CountToolUsage(entries);
    return Success(SessionRecord(DurationText(duration.value), duration.value, |users|, users, modified, created, commits, usage));
  }
}

/** `export_sessions_by_topic.py`: keyword selection of sessions, text extraction from
    message content, the per-session summary, the table of contents, and the rendering of a
    conversation with consecutive assistant messages merged into one reply. */
module SessionExport {
  import opened Wrappers
  import opened Strings
  import opened LogEntries
  import opened MessageCleaning

  // ---------------------------------------------------------------------------
  // Text extraction

  /** What one content item adds to the list of texts. */
  function PartText(p: Part): seq<string>
  {
    match p
    case TextPart(t) => [t]
    case StringItem(t) => [t]
    case _ => []
  }

  /** The texts of a content list, in order: text items and bare strings. */
  function PartTexts(parts: seq<Part>): seq<string>
    decreases |parts|
  {
    if parts == [] then [] else PartText(parts[0]) + PartTexts(parts[1..])
  }

  /** Whether some item of a content list is a tool call. */
  predicate HasToolUse(parts: seq<Part>)
    decreases |parts|
  {
    parts != [] && (HasToolUse(parts[..|parts| - 1]) || parts[|parts| - 1].ToolUse?)
  }

  lemma {:induction false} HasToolUseExists(parts: seq<Part>)
    ensures HasToolUse(parts) <==> exists i :: 0 <= i < |parts| && parts[i].ToolUse?
    decreases |parts|
  {
    if parts != [] {
      var init := parts[..|parts| - 1];
      HasToolUseExists(init);
      if exists i :: 0 <= i < |init| && init[i].ToolUse? {
        var i :| 0 <= i < |init| && init[i].ToolUse?;
        assert parts[i] == init[i];
      }
      if exists i :: 0 <= i < |parts| && parts[i].ToolUse? {
        var i :| 0 <= i < |parts| && parts[i].ToolUse?;
        if i < |init| {
          assert init[i] == parts[i];
        }
      }
    }
  }

  datatype Extracted = Extracted(text: string, hasTools: bool)

  /** The value `extract_text_from_content` returns. */
  function ExtractedText(c: Content): Extracted
  {
    match c
    case Text(t) => Extracted(t, false)
    case Parts(ps) => Extracted(Join(" ", PartTexts(ps)), HasToolUse(ps))
    case NoContent => Extracted("", false)
  }

  lemma PartTextsStep(parts: seq<Part>, i: nat)
    requires i < |parts|
    ensures PartTexts(parts[..i + 1]) == PartTexts(parts[..i]) + PartText(parts[i])
    ensures HasToolUse(parts[..i + 1]) <==> HasToolUse(parts[..i]) || parts[i].ToolUse?
  {
    assert parts[..i + 1] == parts[..i] + [parts[i]];
    PartTextsAppend(parts[..i], [parts[i]]);
    assert [parts[i]][1..] == [];
    assert parts[..i + 1][..i] == parts[..i];
  }

  /** `extract_text_from_content`. */
  method ExtractTextFromContent(c: Content) returns (r: Extracted)
    ensures r == ExtractedText(c)
  {
    match c {
      case Text(t) =>
        return Extracted(t, false);
      case Parts(parts) =>
        var texts: seq<string> := [];
        var hasTools := false;
        var i := 0;
        while i < |parts|
          invariant i <= |parts|
          invariant texts == PartTexts(parts[..i])
          invariant hasTools <==> HasToolUse(parts[..i])
        {
          PartTextsStep(parts, i);
          match parts[i] {
            case TextPart(t) =>
              texts := texts + [t];
            case ToolUse(_, _) =>
              hasTools := true;
            case StringItem(t) =>
              texts := texts + [t];
            case OtherPart =>
          }
          i := i + 1;
        }
        assert parts[..|parts|] == parts;
        return Extracted(Join(" ", texts), hasTools);
      case NoContent =>
        return Extracted("", false);
    }
  }

  /** A text comes out of a content list exactly when some item is that text or that string. */
  lemma {:induction false} PartTextsMembers(parts: seq<Part>, t: string)
    ensures t in PartTexts(parts) <==> exists i :: 0 <= i < |parts| && (parts[i] == TextPart(t) || parts[i] == StringItem(t))
    decreases |parts|
  {
    if parts != [] {
      PartTextsMembers(parts[1..], t);
      assert forall i :: 0 < i < |parts| ==> parts[i] == parts[1..][i - 1];
    }
  }

  lemma {:induction false} PartTextsAppend(a: seq<Part>, b: seq<Part>)
    ensures PartTexts(a + b) == PartTexts(a) + PartTexts(b)
    decreases |a|
  {
    if a == [] {
      assert a + b == b;
    } else {
      assert (a + b)[1..] == a[1..] + b;
      PartTextsAppend(a[1..], b);
    }
  }

  /** A tool call, like any item other than text, adds no text to a content list. */
  lemma ToolUseAddsNoText(a: seq<Part>, p: Part, b: seq<Part>)
    requires p.ToolUse? || p.OtherPart?
    ensures PartTexts(a + [p] + b) == PartTexts(a + b)
  {
    PartTextsAppend(a + [p], b);
    PartTextsAppend(a, [p]);
    PartTextsAppend(a, b);
    assert [p][1..] == [];
    assert PartTexts([p]) == [];
    assert PartTexts(a + [p]) == PartTexts(a);
  }

  /** A content list holding one tool call reports a tool and one holding one text item
      yields exactly that text; a plain string is returned as it is. */
  lemma SingleItemContent(name: Option<string>, input: map<string, string>, t: string)
    ensures ExtractedText(Parts([ToolUse(name, input)])) == Extracted("", true)
    ensures ExtractedText(Parts([TextPart(t)])) == Extracted(t, false)
    ensures ExtractedText(Text(t)) == Extracted(t, false)
  {
    assert [ToolUse(name, input)][..0] == [] && [ToolUse(name, input)][1..] == [];
    assert PartTexts([ToolUse(name, input)]) == [];
    assert [TextPart(t)][..0] == [] && [TextPart(t)][1..] == [];
    assert PartTexts([TextPart(t)]) == [t];
    assert !HasToolUse([TextPart(t)]);
    assert Join(" ", [t]) == t;
  }

  /** A message as the export reads it: its type, its extracted text after cleaning, and
      whether its content holds a tool call. */
  datatype View = View(role: Role, text: string, hasTools: bool)

  function ViewOf(e: Entry): View
  {
    var ex := ExtractedText(e.content);
    View(e.role, CleanUserMessage(ex.text), ex.hasTools)
  }

  function Views(msgs: seq<Entry>): (r: seq<View>)
    ensures |r| == |msgs|
  {
    seq(|msgs|, i requires 0 <= i < |msgs| => ViewOf(msgs[i]))
  }

  /** Reads every message through `extract_text_from_content` and `clean_user_message`, as
      each loop of the export does before it looks at a message. */
  method ReadMessages(msgs: seq<Entry>) returns (vs: seq<View>)
    ensures vs == Views(msgs)
  {
    vs := [];
    var i := 0;
    while i < |msgs|
      invariant i <= |msgs| && |vs| == i
      invariant forall k :: 0 <= k < i ==> vs[k] == ViewOf(msgs[k])
    {
      var ex := ExtractTextFromContent(msgs[i].content);
      var text := CleanUserMessage(ex.text);
      ghost var v := View(msgs[i].role, text, ex.hasTools);
      assert v == ViewOf(msgs[i]);
      vs := vs + [View(msgs[i].role, text, ex.hasTools)];
      i := i + 1;
    }
  }

  /** A plain text message reads as that text when it holds no tag, caveat or marker. */
  lemma PlainTextView(t: string)
    requires '<' !in t && !Contains(t, "Caveat:")
    requires !Contains(t, InterruptMarker) && !Contains(t, ContinuationMarker)
    requires t == [] || (!IsSpace(t[0]) && !IsSpace(t[|t| - 1]))
    ensures ViewOf(Entry(User, None, Text(t))) == View(User, t, false)
  {
    CleanPlainText(t);
    StripStripped(t);
  }

  // ---------------------------------------------------------------------------
  // Keywords and session selection

  /** `[k.strip().lower() for k in arg.split(',')]`. */
  function ParseKeywords(arg: string): seq<string>
  {
    var pieces := Split(arg, ',');
    seq(|pieces|, i requires 0 <= i < |pieces| => Lower(Strip(pieces[i])))
  }

  lemma LowerKeepsShape(s: string)
    ensures forall i :: 0 <= i < |s| ==> (IsSpace(Lower(s)[i]) <==> IsSpace(s[i]))
    ensures forall i :: 0 <= i < |s| ==> (Lower(s)[i] == ',' <==> s[i] == ',')
    ensures forall i :: 0 <= i < |s| ==> !('A' <= Lower(s)[i] <= 'Z')
  {
  }

  /** One keyword per comma-separated piece; each is free of surrounding whitespace, commas
      and upper-case ASCII letters. */
  lemma KeywordsShape(arg: string)
    ensures |ParseKeywords(arg)| == multiset(arg)[','] + 1
    ensures forall k :: 0 <= k < |ParseKeywords(arg)| ==>
              var kw := ParseKeywords(arg)[k];
              ',' !in kw && (kw == [] || (!IsSpace(kw[0]) && !IsSpace(kw[|kw| - 1])))
                && forall i :: 0 <= i < |kw| ==> !('A' <= kw[i] <= 'Z')
  {
    SplitCount(arg, ',');
    SplitPieces(arg, ',');
    var pieces := Split(arg, ',');
    forall k | 0 <= k < |pieces|
      ensures var kw := ParseKeywords(arg)[k];
              ',' !in kw && (kw == [] || (!IsSpace(kw[0]) && !IsSpace(kw[|kw| - 1])))
                && forall i :: 0 <= i < |kw| ==> !('A' <= kw[i] <= 'Z')
    {
      var s := Strip(pieces[k]);
      assert ',' !in pieces[k];
      assert ParseKeywords(arg)[k] == Lower(s);
      StripSlice(pieces[k]);
      StripNoOuterSpace(pieces[k]);
      LowerKeepsShape(s);
      assert ',' !in s by {
        forall i | 0 <= i < |s| ensures s[i] != ',' {
          assert s[i] == pieces[k][StripStart(pieces[k]) + i];
        }
      }
    }
  }

  /** A trailing comma in the keyword argument yields the empty keyword. */
  lemma TrailingCommaKeyword(arg: string)
    ensures "" in ParseKeywords(arg + ",")
  {
    SplitConcat(arg, "", ',');
    assert arg + [','] + "" == arg + ",";
    var pieces := Split(arg + ",", ',');
    assert pieces[|pieces| - 1] == "";
    assert Strip("") == "";
    assert ParseKeywords(arg + ",")[|pieces| - 1] == "";
  }

  /** `any(kw in query.lower() for kw in keywords)`. */
  predicate Matches(query: string, keywords: seq<string>)
  {
    exists i :: 0 <= i < |keywords| && Contains(Lower(query), keywords[i])
  }

  /** The empty keyword occurs in every text, so it selects every session. */
  lemma EmptyKeywordMatchesAll(query: string, keywords: seq<string>)
    requires "" in keywords
    ensures Matches(query, keywords)
  {
    var i :| 0 <= i < |keywords| && keywords[i] == "";
    assert Contains(Lower(query), keywords[i]);
  }

  /** A keyword with an upper-case letter never matches: the query is lowered first. */
  lemma UpperKeywordNeverMatches(query: string, kw: string)
    requires exists i :: 0 <= i < |kw| && 'A' <= kw[i] <= 'Z'
    ensures !Matches(query, [kw])
  {
    var j :| 0 <= j < |kw| && 'A' <= kw[j] <= 'Z';
    var lowered := Lower(query);
    forall p | 0 <= p <= |lowered| ensures !(kw <= lowered[p..]) {
      if p + j < |lowered| {
        assert lowered[p..][j] == lowered[p + j];
      }
    }
    ContainsAt(lowered, kw);
    assert [kw][0] == kw;
  }

  /** The loop that collects the ids of the sessions whose first query matches. */
  method MatchingSessions(firstQueries: map<string, string>, keywords: seq<string>) returns (ids: set<string>)
    ensures ids == set id | id in firstQueries && Matches(firstQueries[id], keywords)
  {
    ids := {};
    var pending := firstQueries.Keys;
    while pending != {}
      invariant pending <= firstQueries.Keys
      invariant ids == set id | id in firstQueries.Keys - pending && Matches(firstQueries[id], keywords)
      decreases |pending|
    {
      var id :| id in pending;
      if Matches(firstQueries[id], keywords) {
        ids := ids + {id};
      }
      pending := pending - {id};
    }
  }


  // ---------------------------------------------------------------------------
  // Session summary

  /** The texts `generate_session_summary` skips. */
  predicate SummarySkips(text: string)
  {
    text == [] || "/" <= text || Contains(text, "Caveat:") || text == Interrupted || text == SessionContinuation
  }

  /** The user queries of a session, in order. */
  function SummaryQueries(vs: seq<View>): seq<string>
    decreases |vs|
  {
    if vs == [] then []
    else
      var v := vs[|vs| - 1];
      SummaryQueries(vs[..|vs| - 1]) + (if v.role == User && !SummarySkips(v.text) then [v.text] else [])
  }

  /** The keywords found in a text, in keyword order. */
  function Topics(keywords: seq<string>, text: string): seq<string>
    decreases |keywords|
  {
    if keywords == [] then []
    else
      var kw := keywords[|keywords| - 1];
      Topics(keywords[..|keywords| - 1], text) + (if Contains(text, kw) then [kw] else [])
  }

  const Unavailable: string := "Session details not available."

  /** The sentence built from the queries and the topics found in them. */
  function Summary(queries: seq<string>, keywords: seq<string>): string
  {
    if queries == [] then Unavailable
    else
      var topics := Topics(keywords, Lower(Join(" ", queries)));
      var n := |queries|;
      "This session covered " + (if topics != [] then Join(", ", topics) else "related topics")
        + " through " + NatToString(n) + " user " + (if n == 1 then "query" else "queries") + "."
  }

  lemma SummaryQueriesStep(vs: seq<View>, i: nat)
    requires i < |vs|
    ensures SummaryQueries(vs[..i + 1]) == SummaryQueries(vs[..i])
              + (if vs[i].role == User && !SummarySkips(vs[i].text) then [vs[i].text] else [])
  {
    assert vs[..i + 1][..i] == vs[..i];
  }

  lemma TopicsStep(keywords: seq<string>, text: string, i: nat)
    requires i < |keywords|
    ensures Topics(keywords[..i + 1], text) == Topics(keywords[..i], text) + (if Contains(text, keywords[i]) then [keywords[i]] else [])
  {
    assert keywords[..i + 1][..i] == keywords[..i];
  }

  /** `generate_session_summary`. */
  method GenerateSessionSummary(vs: seq<View>, keywords: seq<string>) returns (summary: string)
    ensures summary == Summary(SummaryQueries(vs), keywords)
  {
    var queries: seq<string> := [];
    var i := 0;
    while i < |vs|
      invariant i <= |vs|
      invariant queries == SummaryQueries(vs[..i])
    {
      SummaryQueriesStep(vs, i);
      var v := vs[i];
      if !SummarySkips(v.text) && v.role == User {
        queries := queries + [v.text];
      }
      i := i + 1;
    }
    assert vs[..|vs|] == vs;
    if queries == [] {
      return Unavailable;
    }
    var topics: seq<string> := [];
    var allText := Lower(Join(" ", queries));
    var k := 0;
    while k < |keywords|
      invariant k <= |keywords|
      invariant topics == Topics(keywords[..k], allText)
    {
      TopicsStep(keywords, allText, k);
      if Contains(allText, keywords[k]) {
        topics := topics + [keywords[k]];
      }
      k := k + 1;
    }
    assert keywords[..|keywords|] == keywords;
    var n := |queries|;
    summary := "This session covered " + (if topics != [] then Join(", ", topics) else "related topics")
      + " through " + NatToString(n) + " user " + (if n == 1 then "query" else "queries") + ".";
  }

  /** A keyword is a topic exactly when it occurs in the text. */
  lemma {:induction false} TopicsMembers(keywords: seq<string>, text: string)
    ensures |Topics(keywords, text)| <= |keywords|
    ensures forall kw :: kw in Topics(keywords, text) <==> kw in keywords && Contains(text, kw)
    decreases |keywords|
  {
    if keywords != [] {
      var init := keywords[..|keywords| - 1];
      TopicsMembers(init, text);
      assert keywords == init + [keywords[|keywords| - 1]];
    }
  }

  /** A user message counts as a query exactly when its cleaned text is not skipped. */
  lemma {:induction false} SummaryQueriesMembers(vs: seq<View>, t: string)
    ensures t in SummaryQueries(vs) <==> exists i :: 0 <= i < |vs| && vs[i].role == User && vs[i].text == t && !SummarySkips(t)
    decreases |vs|
  {
    if vs != [] {
      var init := vs[..|vs| - 1];
      SummaryQueriesMembers(init, t);
      assert forall i :: 0 <= i < |init| ==> vs[i] == init[i];
    }
  }

  /** Each query is a non-empty cleaned text that does not start with `/` and has no
      surrounding whitespace. */
  lemma QueryShape(msgs: seq<Entry>, t: string)
    requires t in SummaryQueries(Views(msgs))
    ensures t != [] && t[0] != '/' && !IsSpace(t[0]) && !IsSpace(t[|t| - 1])
  {
    SummaryQueriesMembers(Views(msgs), t);
    var i :| 0 <= i < |msgs| && Views(msgs)[i].role == User && Views(msgs)[i].text == t && !SummarySkips(t);
    CleanShape(ExtractedText(msgs[i].content).text);
    assert t[0] == '/' ==> "/" <= t;
  }

  /** The summary says the details are not available exactly when there is no query. */
  lemma SummaryUnavailable(queries: seq<string>, keywords: seq<string>)
    ensures Summary(queries, keywords) == Unavailable <==> queries == []
  {
    if queries != [] {
      assert Summary(queries, keywords)[0] == 'T';
    }
  }

  /** The summary ends in "query." exactly when there is one query. */
  lemma SummaryNoun(queries: seq<string>, keywords: seq<string>)
    ensures var r := Summary(queries, keywords);
            (|r| >= 6 && r[|r| - 6..] == "query.") <==> |queries| == 1
  {
    var r := Summary(queries, keywords);
    if queries != [] {
      var topics := Topics(keywords, Lower(Join(" ", queries)));
      var n := |queries|;
      var head := "This session covered " + (if topics != [] then Join(", ", topics) else "related topics")
        + " through " + NatToString(n) + " user ";
      var tail := (if n == 1 then "query" else "queries") + ".";
      assert r == head + tail;
      SuffixOf(head, tail);
      if n != 1 {
        assert |tail| == 8 && tail[2] == 'e';
        assert r[|r| - 6] == tail[2];
      }
    } else {
      assert |r| == 30 && r[24] == 'l';
    }
  }

  lemma SuffixOf(a: string, b: string)
    ensures |a + b| >= |b| && (a + b)[|a + b| - |b|..] == b
  {
  }

  // ---------------------------------------------------------------------------
  // Conversation rendering

  /** The outer loop renders a message, after the interrupt check, unless its cleaned text
      is empty, starts with `/clear`, `/login` or `/mcp`, or is the continuation sentinel. */
  predicate Shown(text: string)
  {
    text != Interrupted && !Skipped(text)
  }

  /** The texts the outer loop passes over without rendering. */
  predicate Skipped(text: string)
  {
    text == [] || "/clear" <= text || "/login" <= text || "/mcp" <= text || text == SessionContinuation
  }

  /** The cleaned texts of the user messages the conversation shows, in order. */
  function ShownUserTexts(vs: seq<View>): seq<string>
    decreases |vs|
  {
    if vs == [] then []
    else
      var v := vs[|vs| - 1];
      ShownUserTexts(vs[..|vs| - 1]) + (if v.role == User && Shown(v.text) then [v.text] else [])
  }

  lemma ShownUserTextsStep(vs: seq<View>, i: nat)
    requires i < |vs|
    ensures ShownUserTexts(vs[..i + 1]) == ShownUserTexts(vs[..i])
              + (if vs[i].role == User && Shown(vs[i].text) then [vs[i].text] else [])
  {
    assert vs[..i + 1][..i] == vs[..i];
  }

  /** A run of assistant messages shows no user text. */
  lemma {:induction false} ShownSkipsAssistants(vs: seq<View>, i: nat, next: nat)
    requires i <= next <= |vs|
    requires forall j :: i <= j < next ==> vs[j].role == Assistant
    ensures ShownUserTexts(vs[..next]) == ShownUserTexts(vs[..i])
    decreases next - i
  {
    if i < next {
      ShownUserTextsStep(vs, next - 1);
      ShownSkipsAssistants(vs, i, next - 1);
    }
  }

  /** One rendered block of a conversation. */
  datatype Block =
    | InterruptedNotice
      /** A user query, numbered within the session; only a text longer than ten characters
          gets the anchor `session-<n>-q<number>`. */
    | UserQuery(text: string, number: nat, anchored: bool)
    | AssistantReply(text: string)

  function UserQueries(blocks: seq<Block>): seq<Block>
    decreases |blocks|
  {
    if blocks == [] then []
    else
      var b := blocks[|blocks| - 1];
      UserQueries(blocks[..|blocks| - 1]) + (if b.UserQuery? then [b] else [])
  }

  lemma UserQueriesAppend(blocks: seq<Block>, b: Block)
    ensures UserQueries(blocks + [b]) == UserQueries(blocks) + (if b.UserQuery? then [b] else [])
  {
    assert (blocks + [b])[..|blocks|] == blocks;
  }

  /** The user-query blocks for the shown user texts, numbered from one. */
  function Numbered(texts: seq<string>): (r: seq<Block>)
    ensures |r| == |texts|
  {
    seq(|texts|, k requires 0 <= k < |texts| => UserQuery(texts[k], k + 1, |texts[k]| > 10))
  }

  lemma NumberedSnoc(texts: seq<string>, t: string)
    ensures Numbered(texts + [t]) == Numbered(texts) + [UserQuery(t, |texts| + 1, |t| > 10)]
  {
  }

  /** The texts an assistant run contributes: non-empty and not starting with `/`. */
  function RunTexts(run: seq<View>): seq<string>
    decreases |run|
  {
    if run == [] then []
    else
      var t := run[|run| - 1].text;
      RunTexts(run[..|run| - 1]) + (if t != [] && !("/" <= t) then [t] else [])
  }

  /** Whether some message of the run used a tool. */
  predicate RunUsedTools(run: seq<View>)
    decreases |run|
  {
    run != [] && (RunUsedTools(run[..|run| - 1]) || run[|run| - 1].hasTools)
  }

  const ToolsPrefix: string := "<using tools>\n\n"

  /** The reply a run of assistant messages is merged into, if any of them has text. */
  function MergedReply(run: seq<View>): Option<string>
  {
    var texts := RunTexts(run);
    if texts == [] then None
    else
      var combined := Join("\n\n", texts);
      Some(if RunUsedTools(run) && !Contains(Lower(combined), "<using tool") then ToolsPrefix + combined else combined)
  }

  lemma RunStep(vs: seq<View>, start: nat, i: nat)
    requires start <= i < |vs|
    ensures RunTexts(vs[start..i + 1]) == RunTexts(vs[start..i])
              + (if vs[i].text != [] && !("/" <= vs[i].text) then [vs[i].text] else [])
    ensures RunUsedTools(vs[start..i + 1]) <==> RunUsedTools(vs[start..i]) || vs[i].hasTools
  {
    var run := vs[start..i + 1];
    assert run[..|run| - 1] == vs[start..i];
    assert run[|run| - 1] == vs[i];
  }

  /** The inner loop that merges the assistant messages starting at `start`. */
  method MergeAssistantRun(vs: seq<View>, start: nat) returns (reply: Option<string>, next: nat)
    requires start < |vs| && vs[start].role == Assistant
    ensures start < next <= |vs|
    ensures forall j :: start <= j < next ==> vs[j].role == Assistant
    ensures next == |vs| || vs[next].role != Assistant
    ensures reply == MergedReply(vs[start..next])
    ensures reply.Some? ==> reply.value != []
    ensures ShownUserTexts(vs[..next]) == ShownUserTexts(vs[..start])
  {
    var merged: seq<string> := [];
    var usedTools := false;
    next := start;
    while next < |vs| && vs[next].role == Assistant
      invariant start <= next <= |vs|
      invariant forall j :: start <= j < next ==> vs[j].role == Assistant
      invariant merged == RunTexts(vs[start..next])
      invariant usedTools <==> RunUsedTools(vs[start..next])
      decreases |vs| - next
    {
      RunStep(vs, start, next);
      var v := vs[next];
      if v.text != [] && !("/" <= v.text) {
        merged := merged + [v.text];
      }
      if v.hasTools {
        usedTools := true;
      }
      next := next + 1;
    }
    if merged == [] {
      reply := None;
    } else {
      var combined := Join("\n\n", merged);
      if usedTools && !Contains(Lower(combined), "<using tool") {
        combined := ToolsPrefix + combined;
      }
      reply := Some(combined);
    }
    ShownSkipsAssistants(vs, start, next);
    if reply.Some? {
      MergedReplyShape(vs[start..next]);
    }
  }

  /** The number of assistant messages `vs` starts with. */
  function RunLength(vs: seq<View>): (r: nat)
    ensures r <= |vs|
    decreases |vs|
  {
    if vs == [] || vs[0].role != Assistant then 0 else 1 + RunLength(vs[1..])
  }

  /** The blocks the conversation loop renders from `vs` when `n` user queries came before:
      the interrupt check first, then the skip rules, then a numbered user query or the
      merged reply of the maximal run of assistant messages starting here. */
  function Rendered(vs: seq<View>, n: nat): seq<Block>
    decreases |vs|
  {
    if vs == [] then []
    else
      var v := vs[0];
      if v.role == OtherRole then Rendered(vs[1..], n)
      else if v.text == Interrupted then [InterruptedNotice] + Rendered(vs[1..], n)
      else if Skipped(v.text) then Rendered(vs[1..], n)
      else if v.role == User then [UserQuery(v.text, n + 1, |v.text| > 10)] + Rendered(vs[1..], n + 1)
      else
        var k := RunLength(vs);
        ReplyBlocks(MergedReply(vs[..k])) + Rendered(vs[k..], n)
  }

  /** The block a merged reply renders as: none when the run had nothing to show. */
  function ReplyBlocks(reply: Option<string>): (r: seq<Block>)
    ensures |r| <= 1 && (r != [] <==> reply.Some?)
    ensures forall b :: b in r ==> b == AssistantReply(reply.value)
  {
    match reply
    case Some(t) => [AssistantReply(t)]
    case None => []
  }

  /** A maximal run of assistant messages from `start` to `next` is the run the reference
      rendering measures. */
  lemma {:induction false} RunLengthOf(vs: seq<View>, start: nat, next: nat)
    requires start <= next <= |vs|
    requires forall j :: start <= j < next ==> vs[j].role == Assistant
    requires next == |vs| || vs[next].role != Assistant
    ensures RunLength(vs[start..]) == next - start
    decreases next - start
  {
    if start < next {
      RunLengthOf(vs, start + 1, next);
      assert vs[start..][1..] == vs[start + 1..];
    } else if next < |vs| {
      assert vs[start..][0] == vs[next];
    }
  }

  /** The loop that renders a conversation; timestamps and markup are not modelled. */
  method RenderConversation(vs: seq<View>) returns (blocks: seq<Block>)
    ensures blocks == Rendered(vs, 0)
    ensures UserQueries(blocks) == Numbered(ShownUserTexts(vs))
    ensures forall b :: b in blocks && b.AssistantReply? ==> b.text != []
  {
    blocks := [];
    var queryNum := 0;
    var i := 0;
    assert vs[0..] == vs;
    while i < |vs|
      invariant i <= |vs|
      invariant queryNum == |ShownUserTexts(vs[..i])|
      invariant blocks + Rendered(vs[i..], queryNum) == Rendered(vs, 0)
      invariant UserQueries(blocks) == Numbered(ShownUserTexts(vs[..i]))
      invariant forall b :: b in blocks && b.AssistantReply? ==> b.text != []
      decreases |vs| - i
    {
      var v := vs[i];
      if v.role == OtherRole {
        ShownUnchanged(vs, i);
        RenderedSkip(vs, i, queryNum);
        i := i + 1;
      } else {
        var text := v.text;
        if text == Interrupted {
          ShownUnchanged(vs, i);
          NonQueryAppend(blocks, InterruptedNotice);
          RenderedEmit(vs, i, queryNum, blocks, InterruptedNotice, queryNum);
          blocks := blocks + [InterruptedNotice];
          i := i + 1;
        } else if Skipped(text) {
          ShownUnchanged(vs, i);
          RenderedSkip(vs, i, queryNum);
          i := i + 1;
        } else if v.role == User {
          var b := UserQuery(text, queryNum + 1, |text| > 10);
          QueryAppend(vs, i, blocks);
          RenderedEmit(vs, i, queryNum, blocks, b, queryNum + 1);
          queryNum := queryNum + 1;
          blocks := blocks + [b];
          i := i + 1;
        } else {
          var reply, next := MergeAssistantRun(vs, i);
          ghost var prior := blocks;
          RenderedRun(vs, i, next, queryNum, blocks, Rendered(vs, 0));
          if reply.Some? {
            NonQueryAppend(blocks, AssistantReply(reply.value));
            blocks := blocks + [AssistantReply(reply.value)];
          }
          assert blocks == prior + ReplyBlocks(reply);
          i := next;
        }
      }
    }
    assert vs[..|vs|] == vs;
  }

  /** A message the loop passes over leaves the rest of the rendering as it was. */
  lemma RenderedSkip(vs: seq<View>, i: nat, n: nat)
    requires i < |vs|
    requires vs[i].role == OtherRole || (vs[i].text != Interrupted && Skipped(vs[i].text))
    ensures Rendered(vs[i..], n) == Rendered(vs[i + 1..], n)
  {
    assert vs[i..][0] == vs[i] && vs[i..][1..] == vs[i + 1..];
  }

  /** A message rendered as one block: a notice or a user query. */
  lemma RenderedEmit(vs: seq<View>, i: nat, n: nat, blocks: seq<Block>, b: Block, n': nat)
    requires i < |vs| && vs[i].role != OtherRole
    requires (vs[i].text == Interrupted && b == InterruptedNotice && n' == n)
          || (vs[i].text != Interrupted && !Skipped(vs[i].text) && vs[i].role == User
              && b == UserQuery(vs[i].text, n + 1, |vs[i].text| > 10) && n' == n + 1)
    ensures blocks + Rendered(vs[i..], n) == (blocks + [b]) + Rendered(vs[i + 1..], n')
  {
    assert vs[i..][0] == vs[i] && vs[i..][1..] == vs[i + 1..];
  }

  /** A maximal assistant run from `i` to `next` renders as its merged reply, if it has one. */
  lemma RenderedRun(vs: seq<View>, i: nat, next: nat, n: nat, blocks: seq<Block>, total: seq<Block>)
    requires i < next <= |vs| && vs[i].text != Interrupted && !Skipped(vs[i].text)
    requires forall j :: i <= j < next ==> vs[j].role == Assistant
    requires next == |vs| || vs[next].role != Assistant
    requires blocks + Rendered(vs[i..], n) == total
    ensures (blocks + ReplyBlocks(MergedReply(vs[i..next]))) + Rendered(vs[next..], n) == total
  {
    RunLengthOf(vs, i, next);
    SliceOfSlice(vs, i, next);
    RenderedRunStep(vs[i..], n, next - i);
    AppendAssoc(blocks, ReplyBlocks(MergedReply(vs[i..next])), Rendered(vs[next..], n));
  }

  lemma AppendAssoc<T>(a: seq<T>, b: seq<T>, c: seq<T>)
    ensures a + (b + c) == (a + b) + c
  {
  }

  lemma SliceOfSlice<T>(s: seq<T>, i: nat, j: nat)
    requires i <= j <= |s|
    ensures i < |s| ==> s[i..][0] == s[i]
    ensures s[i..][..j - i] == s[i..j] && s[i..][j - i..] == s[j..]
  {
  }

  /** One step of the reference rendering at a shown assistant message. */
  lemma RenderedRunStep(ws: seq<View>, n: nat, k: nat)
    requires ws != [] && ws[0].role == Assistant
    requires ws[0].text != Interrupted && !Skipped(ws[0].text)
    requires RunLength(ws) == k
    ensures Rendered(ws, n) == ReplyBlocks(MergedReply(ws[..k])) + Rendered(ws[k..], n)
  {
  }

  /** Views `s` up to `e` are assistant messages and the run stops at `e`. */
  predicate AssistantRun(vs: seq<View>, s: int, e: int)
  {
    && 0 <= s < e <= |vs|
    && (forall j :: s <= j < e ==> vs[j].role == Assistant)
    && (e == |vs| || vs[e].role != Assistant)
  }

  /** Every reply among `blocks` merges an assistant run of `vs`. */
  ghost predicate RepliesFromRuns(vs: seq<View>, blocks: seq<Block>)
  {
    forall b :: b in blocks && b.AssistantReply? ==>
      exists s, e :: AssistantRun(vs, s, e) && MergedReply(vs[s..e]) == Some(b.text)
  }

  /** A notice among `blocks` stands for an interrupted message of `vs`. */
  ghost predicate NoticesFromInterrupts(vs: seq<View>, blocks: seq<Block>)
  {
    InterruptedNotice in blocks ==>
      exists j :: 0 <= j < |vs| && vs[j].role != OtherRole && vs[j].text == Interrupted
  }

  /** Each merged reply of the rendering comes from a run of assistant messages that goes
      on until the next message of another role, and each interruption notice from an
      interrupted message. */
  lemma {:induction false} RenderedOrigins(vs: seq<View>, n: nat)
    ensures RepliesFromRuns(vs, Rendered(vs, n))
    ensures NoticesFromInterrupts(vs, Rendered(vs, n))
    decreases |vs|
  {
    if vs != [] {
      var v := vs[0];
      if v.role == OtherRole || (v.text != Interrupted && Skipped(v.text)) {
        RenderedOrigins(vs[1..], n);
        OriginsFromSuffix(vs, 1, Rendered(vs[1..], n));
      } else if v.text == Interrupted {
        RenderedOrigins(vs[1..], n);
        OriginsFromSuffix(vs, 1, Rendered(vs[1..], n));
        assert Rendered(vs, n) == [InterruptedNotice] + Rendered(vs[1..], n);
      } else if v.role == User {
        RenderedOrigins(vs[1..], n + 1);
        OriginsFromSuffix(vs, 1, Rendered(vs[1..], n + 1));
        assert Rendered(vs, n) == [UserQuery(v.text, n + 1, |v.text| > 10)] + Rendered(vs[1..], n + 1);
      } else {
        var k := RunLength(vs);
        RunLengthRun(vs);
        RenderedOrigins(vs[k..], n);
        OriginsFromSuffix(vs, k, Rendered(vs[k..], n));
        var head := ReplyBlocks(MergedReply(vs[..k]));
        assert vs[0..k] == vs[..k];
        assert RepliesFromRuns(vs, head);
        assert Rendered(vs, n) == head + Rendered(vs[k..], n);
      }
    }
  }

  /** What a suffix of the views accounts for, the whole views account for. */
  lemma OriginsFromSuffix(vs: seq<View>, d: nat, blocks: seq<Block>)
    requires d <= |vs|
    requires RepliesFromRuns(vs[d..], blocks) && NoticesFromInterrupts(vs[d..], blocks)
    ensures RepliesFromRuns(vs, blocks) && NoticesFromInterrupts(vs, blocks)
  {
    forall b | b in blocks && b.AssistantReply?
      ensures exists s, e :: AssistantRun(vs, s, e) && MergedReply(vs[s..e]) == Some(b.text)
    {
      var s, e :| AssistantRun(vs[d..], s, e) && MergedReply(vs[d..][s..e]) == Some(b.text);
      ShiftRun(vs, d, s, e);
    }
    if InterruptedNotice in blocks {
      var j :| 0 <= j < |vs[d..]| && vs[d..][j].role != OtherRole && vs[d..][j].text == Interrupted;
      assert vs[j + d] == vs[d..][j];
    }
  }

  /** A run found in a suffix of the views is a run of the whole views. */
  lemma ShiftRun(vs: seq<View>, d: nat, s: int, e: int)
    requires d <= |vs| && AssistantRun(vs[d..], s, e)
    ensures AssistantRun(vs, s + d, e + d) && vs[d..][s..e] == vs[s + d..e + d]
  {
    forall j | s + d <= j < e + d
      ensures vs[j].role == Assistant
    {
      assert vs[j] == vs[d..][j - d];
    }
    if e + d < |vs| {
      assert vs[e + d] == vs[d..][e];
    }
    assert vs[d..][s..e] == vs[s + d..e + d];
  }

  /** The leading assistant messages form a run. */
  lemma {:induction false} RunLengthRun(vs: seq<View>)
    requires vs != [] && vs[0].role == Assistant
    ensures AssistantRun(vs, 0, RunLength(vs))
    decreases |vs|
  {
    if |vs| > 1 && vs[1].role == Assistant {
      RunLengthRun(vs[1..]);
      ShiftRun(vs, 1, 0, RunLength(vs[1..]));
    } else if |vs| > 1 {
      assert vs[1..][0] == vs[1];
    }
  }

  /** A message that is not a shown user message adds no shown user text. */
  lemma ShownUnchanged(vs: seq<View>, i: nat)
    requires i < |vs| && !(vs[i].role == User && Shown(vs[i].text))
    ensures ShownUserTexts(vs[..i + 1]) == ShownUserTexts(vs[..i])
  {
    ShownUserTextsStep(vs, i);
  }

  /** A block other than a user query leaves the user queries as they are. */
  lemma NonQueryAppend(blocks: seq<Block>, b: Block)
    requires !b.UserQuery?
    ensures UserQueries(blocks + [b]) == UserQueries(blocks)
  {
    UserQueriesAppend(blocks, b);
  }

  /** A shown user message adds the next numbered query. */
  lemma QueryAppend(vs: seq<View>, i: nat, blocks: seq<Block>)
    requires i < |vs| && vs[i].role == User && Shown(vs[i].text)
    requires UserQueries(blocks) == Numbered(ShownUserTexts(vs[..i]))
    ensures |ShownUserTexts(vs[..i + 1])| == |ShownUserTexts(vs[..i])| + 1
    ensures UserQueries(blocks + [UserQuery(vs[i].text, |ShownUserTexts(vs[..i])| + 1, |vs[i].text| > 10)])
         == Numbered(ShownUserTexts(vs[..i + 1]))
  {
    var shown := ShownUserTexts(vs[..i]);
    var t := vs[i].text;
    ShownUserTextsStep(vs, i);
    UserQueriesAppend(blocks, UserQuery(t, |shown| + 1, |t| > 10));
    NumberedSnoc(shown, t);
  }

  lemma LowerConcat(a: string, b: string)
    ensures Lower(a + b) == Lower(a) + Lower(b)
  {
  }

  lemma {:induction false} RunTextsShape(run: seq<View>)
    ensures forall t :: t in RunTexts(run) ==> t != [] && t[0] != '/'
    decreases |run|
  {
    if run != [] {
      RunTextsShape(run[..|run| - 1]);
      var t := run[|run| - 1].text;
      assert t != [] && t[0] == '/' ==> "/" <= t;
    }
  }

  lemma JoinStartsWithFirst(sep: string, texts: seq<string>)
    requires texts != []
    ensures texts[0] <= Join(sep, texts)
  {
  }

  /** A merged reply is non-empty; it mentions tool use whenever a message of the run used a
      tool, and without tool use it is the run's texts joined by blank lines. */
  lemma MergedReplyShape(run: seq<View>)
    requires MergedReply(run).Some?
    ensures MergedReply(run).value != []
    ensures RunUsedTools(run) ==> Contains(Lower(MergedReply(run).value), "<using tool")
    ensures !RunUsedTools(run) ==> MergedReply(run).value == Join("\n\n", RunTexts(run))
  {
    var texts := RunTexts(run);
    var combined := Join("\n\n", texts);
    RunTextsShape(run);
    assert texts[0] in texts;
    JoinStartsWithFirst("\n\n", texts);
    assert |combined| >= |texts[0]| > 0;
    if RunUsedTools(run) && !Contains(Lower(combined), "<using tool") {
      LowerConcat(ToolsPrefix, combined);
      assert Lower(ToolsPrefix) == ToolsPrefix;
      assert "<using tool" <= Lower(ToolsPrefix + combined);
    }
  }

  // ---------------------------------------------------------------------------
  // Table of contents

  /** The user texts the table of contents lists. */
  predicate Listed(text: string)
  {
    text != [] && !("/" <= text) && |text| > 10 && text != Interrupted && text != SessionContinuation
  }

  datatype TocEntry = TocEntry(number: nat, text: string)

  function ListedTexts(vs: seq<View>): seq<string>
    decreases |vs|
  {
    if vs == [] then []
    else
      var v := vs[|vs| - 1];
      ListedTexts(vs[..|vs| - 1]) + (if v.role == User && Listed(v.text) then [v.text] else [])
  }

  /** The entries as the script numbers them: by their position among the listed texts. */
  function TocAsWritten(vs: seq<View>): (r: seq<TocEntry>)
    ensures |r| == |ListedTexts(vs)|
  {
    var texts := ListedTexts(vs);
    seq(|texts|, k requires 0 <= k < |texts| => TocEntry(k + 1, Take(texts[k], 100)))
  }

  /** The entries numbered as the conversation numbers the same messages. */
  function TocLinks(vs: seq<View>): (r: seq<TocEntry>)
    ensures |r| == |ListedTexts(vs)|
    decreases |vs|
  {
    if vs == [] then []
    else
      var init := vs[..|vs| - 1];
      var v := vs[|vs| - 1];
      TocLinks(init) + (if v.role == User && Listed(v.text) then [TocEntry(|ShownUserTexts(init)| + 1, Take(v.text, 100))] else [])
  }

  lemma ListedIsShown(t: string)
    requires Listed(t)
    ensures Shown(t)
  {
    assert t[0] == '/' ==> "/" <= t;
  }

  lemma TocStep(vs: seq<View>, i: nat)
    requires i < |vs|
    ensures TocLinks(vs[..i + 1]) == TocLinks(vs[..i])
              + (if vs[i].role == User && Listed(vs[i].text) then [TocEntry(|ShownUserTexts(vs[..i])| + 1, Take(vs[i].text, 100))] else [])
  {
    assert vs[..i + 1][..i] == vs[..i];
  }

  /** The table-of-contents loop, counting every shown user query so that each entry's
      number is the number of the anchor it links to. */
  method TocQueries(vs: seq<View>) returns (queries: seq<TocEntry>)
    ensures queries == TocLinks(vs)
  {
    queries := [];
    var shown := 0;
    var i := 0;
    while i < |vs|
      invariant i <= |vs|
      invariant shown == |ShownUserTexts(vs[..i])|
      invariant queries == TocLinks(vs[..i])
    {
      TocStep(vs, i);
      ShownUserTextsStep(vs, i);
      if vs[i].role == User {
        var v := vs[i];
        if Listed(v.text) {
          queries := queries + [TocEntry(shown + 1, Take(v.text, 100))];
        }
        if Shown(v.text) {
          shown := shown + 1;
        }
      }
      i := i + 1;
    }
    assert vs[..|vs|] == vs;
  }

  /** Entry `q` links to an anchored query among the shown user texts, and lists its text. */
  ghost predicate Anchors(q: TocEntry, shown: seq<string>)
  {
    1 <= q.number <= |shown| && |shown[q.number - 1]| > 10 && q.text == Take(shown[q.number - 1], 100)
  }

  /** Every entry of the table of contents links to an anchored user query holding the text
      it lists. */
  lemma {:induction false} TocLinksAnchored(vs: seq<View>)
    ensures forall j :: 0 <= j < |TocLinks(vs)| ==> Anchors(TocLinks(vs)[j], ShownUserTexts(vs))
    decreases |vs|
  {
    if vs != [] {
      var init := vs[..|vs| - 1];
      var v := vs[|vs| - 1];
      TocLinksAnchored(init);
      var shown := ShownUserTexts(init);
      var extra := if v.role == User && Shown(v.text) then [v.text] else [];
      var tail := if v.role == User && Listed(v.text) then [TocEntry(|shown| + 1, Take(v.text, 100))] else [];
      assert ShownUserTexts(vs) == shown + extra;
      assert TocLinks(vs) == TocLinks(init) + tail;
      if tail != [] {
        ListedIsShown(v.text);
        assert (shown + extra)[|shown|] == v.text;
      }
      AnchorsExtend(TocLinks(init), tail, shown, extra);
    }
  }

  /** Entries anchored among `shown` stay anchored when more texts follow, and so do the
      entries of `tail`, which point into the new texts. */
  lemma AnchorsExtend(qs: seq<TocEntry>, tail: seq<TocEntry>, shown: seq<string>, extra: seq<string>)
    requires forall j :: 0 <= j < |qs| ==> Anchors(qs[j], shown)
    requires forall j :: 0 <= j < |tail| ==> Anchors(tail[j], shown + extra)
    ensures forall j :: 0 <= j < |qs + tail| ==> Anchors((qs + tail)[j], shown + extra)
  {
    forall j | 0 <= j < |qs + tail| ensures Anchors((qs + tail)[j], shown + extra) {
      if j < |qs| {
        assert (shown + extra)[qs[j].number - 1] == shown[qs[j].number - 1];
      }
    }
  }

  /** The corrected entries list the same texts, in the same order, as the script's own. */
  lemma {:induction false} TocLinksTexts(vs: seq<View>)
    ensures forall j :: 0 <= j < |TocLinks(vs)| ==> TocLinks(vs)[j].text == TocAsWritten(vs)[j].text
    decreases |vs|
  {
    if vs != [] {
      var init := vs[..|vs| - 1];
      TocLinksTexts(init);
      forall j | 0 <= j < |TocLinks(init)| ensures TocLinks(vs)[j].text == TocAsWritten(vs)[j].text {
        assert TocLinks(vs)[j] == TocLinks(init)[j];
        assert ListedTexts(vs)[j] == ListedTexts(init)[j];
      }
    }
  }

  lemma NotSlash(t: string)
    requires t == [] || t[0] != '/'
    ensures !("/" <= t)
  {
    assert "/"[0] == '/';
  }

  /** As written, the entries are numbered among the listed texts only, while the anchors
      count every shown user query: a short query before a long one makes the first entry
      link to `q1`, which is the short query's number and carries no anchor. */
  lemma TocLinkMismatch()
    ensures var vs := [View(User, "hi", false), View(User, "what is a monad", false)];
            TocAsWritten(vs) == [TocEntry(1, "what is a monad")]
              && Numbered(ShownUserTexts(vs))[0] == UserQuery("hi", 1, false)
              && TocLinks(vs) == [TocEntry(2, "what is a monad")]
  {
    var vs := [View(User, "hi", false), View(User, "what is a monad", false)];
    assert vs[..1] == [View(User, "hi", false)];
    assert vs[..1][..0] == [];
    NotSlash("hi");
    NotSlash("what is a monad");
    assert |"hi"| == 2 && |"what is a monad"| == 15;
    assert vs[..|vs| - 1] == vs[..1];
    assert ShownUserTexts(vs[..1]) == ["hi"];
    assert ListedTexts(vs[..1]) == [];
    assert ListedTexts(vs) == ["what is a monad"];
    assert ShownUserTexts(vs) == ["hi", "what is a monad"];
    assert TocLinks(vs[..1]) == [];
  }
}

/** `clean_user_message` of `export_sessions_by_topic.py`: two sentinel checks, seven
    tag-delimited span substitutions in a fixed order, then a whitespace strip. Each
    substitution is the left-to-right, non-overlapping, shortest-match replacement that
    Python's `re.sub` performs for its pattern `OPEN.*?CLOSE`. */
module MessageCleaning {
  import opened Wrappers
  import opened Strings

  // ---------------------------------------------------------------------------
  // Span substitution

  /** Where the lazy `.*?` stops: the first occurrence of `close` in `t`; without DOTALL
      the match fails when a newline comes before it. */
  function FindClose(t: string, close: string, dotAll: bool): (r: Option<nat>)
    requires close != []
    ensures r.Some? ==> r.value + |close| <= |t|
    decreases |t|
  {
    if close <= t then Some(0)
    else if t == [] then None
    else if !dotAll && t[0] == '\n' then None
    else
      match FindClose(t[1..], close, dotAll)
      case Some(k) =>
        Some(k + 1)
      case None => None
  }

  /** The position found is an occurrence of `close`. */
  lemma {:induction false} FindCloseFound(t: string, close: string, dotAll: bool)
    requires close != [] && FindClose(t, close, dotAll).Some?
    ensures close <= t[FindClose(t, close, dotAll).value..]
    decreases |t|
  {
    if !(close <= t) {
      var k := FindClose(t[1..], close, dotAll).value;
      FindCloseFound(t[1..], close, dotAll);
      assert t[k + 1..] == t[1..][k..];
    }
  }

  /** No occurrence of `close` comes before the position found, and without DOTALL no
      newline does either. */
  lemma {:induction false} FindCloseFirst(t: string, close: string, dotAll: bool)
    requires close != [] && FindClose(t, close, dotAll).Some?
    ensures forall i :: 0 <= i < FindClose(t, close, dotAll).value ==> !(close <= t[i..])
    ensures !dotAll ==> '\n' !in t[..FindClose(t, close, dotAll).value]
    decreases |t|
  {
    if !(close <= t) {
      var k := FindClose(t[1..], close, dotAll).value;
      FindCloseFirst(t[1..], close, dotAll);
      forall i | 0 < i < k + 1 ensures !(close <= t[i..]) {
        assert t[i..] == t[1..][i - 1..];
      }
      assert t[..k + 1] == [t[0]] + t[1..][..k];
    }
  }

  /** Without a close tag the lazy match always fails. */
  lemma {:induction false} FindCloseAbsent(t: string, close: string, dotAll: bool)
    requires close != [] && !Contains(t, close)
    ensures FindClose(t, close, dotAll).None?
    decreases |t|
  {
    if t != [] && !(close <= t) {
      FindCloseAbsent(t[1..], close, dotAll);
    }
  }

  /** The close tag right after a stretch that holds neither its first character nor (for a
      pattern without DOTALL) a newline ends the match there. */
  lemma {:induction false} FindCloseAfter(mid: string, close: string, rest: string, dotAll: bool)
    requires close != [] && close[0] !in mid && (dotAll || '\n' !in mid)
    ensures FindClose(mid + close + rest, close, dotAll) == Some(|mid|)
    decreases |mid|
  {
    var t := mid + close + rest;
    if mid == [] {
      assert t == close + rest;
    } else {
      assert !(close <= t) by { assert t[0] == mid[0] != close[0]; }
      assert t[1..] == mid[1..] + close + rest;
      FindCloseAfter(mid[1..], close, rest, dotAll);
    }
  }

  /** Without DOTALL a newline before the close tag makes the match fail. */
  lemma {:induction false} FindCloseNewline(mid: string, close: string, rest: string)
    requires close != [] && close[0] !in mid && close[0] != '\n' && '\n' in mid
    ensures FindClose(mid + close + rest, close, false).None?
    decreases |mid|
  {
    var t := mid + close + rest;
    assert !(close <= t) by { assert t[0] == mid[0] != close[0]; }
    if mid[0] != '\n' {
      assert t[1..] == mid[1..] + close + rest;
      FindCloseNewline(mid[1..], close, rest);
    }
  }

  /** `re.sub(OPEN + '(.*?)' + CLOSE, r'\1' if keep else '', s)`: at each position where
      `open` starts and the lazy match succeeds, the whole span is replaced by its inner
      text (`keep`) or by nothing; elsewhere one character is copied and the scan moves on. */
  function SubSpans(s: string, open: string, close: string, dotAll: bool, keep: bool): string
    requires open != [] && close != []
    decreases |s|
  {
    if s == [] then []
    else
      match SpanAt(s, open, close, dotAll)
      case Some(k) =>
        (if keep then s[|open|..|open| + k] else []) + SubSpans(s[|open| + k + |close|..], open, close, dotAll, keep)
      case None => [s[0]] + SubSpans(s[1..], open, close, dotAll, keep)
  }

  /** A substitution never lengthens the text. */
  lemma {:induction false} SubSpansShorter(s: string, open: string, close: string, dotAll: bool, keep: bool)
    requires open != [] && close != []
    ensures |SubSpans(s, open, close, dotAll, keep)| <= |s|
    decreases |s|
  {
    if s != [] {
      match SpanAt(s, open, close, dotAll)
      case Some(k) =>
        SubSpansShorter(s[|open| + k + |close|..], open, close, dotAll, keep);
      case None =>
        SubSpansShorter(s[1..], open, close, dotAll, keep);
    }
  }

  /** The length of the inner text of a span matched at the front of `s`, if one is. */
  function SpanAt(s: string, open: string, close: string, dotAll: bool): (r: Option<nat>)
    requires close != []
    ensures r.Some? ==> |open| + r.value + |close| <= |s|
  {
    if open <= s then FindClose(s[|open|..], close, dotAll) else None
  }

  /** A text without the opening tag is left as it is. */
  lemma {:induction false} SubSpansIdentity(s: string, open: string, close: string, dotAll: bool, keep: bool)
    requires open != [] && close != [] && !Contains(s, open)
    ensures SubSpans(s, open, close, dotAll, keep) == s
    decreases |s|
  {
    if s != [] {
      SubSpansIdentity(s[1..], open, close, dotAll, keep);
    }
  }

  /** A well-formed span at the front is replaced by its inner text or removed, and the scan
      continues right after it. */
  lemma SubSpansSpan(mid: string, rest: string, open: string, close: string, dotAll: bool, keep: bool)
    requires open != [] && close != [] && close[0] !in mid && (dotAll || '\n' !in mid)
    ensures SubSpans(open + mid + close + rest, open, close, dotAll, keep)
         == (if keep then mid else []) + SubSpans(rest, open, close, dotAll, keep)
  {
    var s := open + mid + close + rest;
    SpanAtFront(mid, rest, open, close, dotAll);
    SubSpansFound(s, open, close, dotAll, keep, |mid|);
    SpanSlices(open, mid, close, rest);
  }

  lemma SpanSlices(open: string, mid: string, close: string, rest: string)
    ensures (open + mid + close + rest)[|open|..|open| + |mid|] == mid
    ensures (open + mid + close + rest)[|open| + |mid| + |close|..] == rest
  {
    var s := open + mid + close + rest;
    assert s[|open|..|open| + |mid|] == mid;
    assert s[|open| + |mid| + |close|..] == rest;
  }

  /** The lazy match succeeds on a well-formed span at the front. */
  lemma SpanAtFront(mid: string, rest: string, open: string, close: string, dotAll: bool)
    requires open != [] && close != [] && close[0] !in mid && (dotAll || '\n' !in mid)
    ensures SpanAt(open + mid + close + rest, open, close, dotAll) == Some(|mid|)
  {
    var s := open + mid + close + rest;
    assert open <= s;
    assert s[|open|..] == mid + close + rest;
    FindCloseAfter(mid, close, rest, dotAll);
  }

  /** A match at the front is replaced and the scan resumes after it. */
  lemma SubSpansFound(s: string, open: string, close: string, dotAll: bool, keep: bool, k: nat)
    requires open != [] && close != [] && SpanAt(s, open, close, dotAll) == Some(k)
    ensures SubSpans(s, open, close, dotAll, keep)
         == (if keep then s[|open|..|open| + k] else []) + SubSpans(s[|open| + k + |close|..], open, close, dotAll, keep)
  {
  }

  /** Without DOTALL a span whose inner text crosses a line is not matched: its first
      character is copied and the scan moves on. */
  lemma SubSpansKeepsMultiline(mid: string, rest: string, open: string, close: string, keep: bool)
    requires open != [] && close != [] && close[0] !in mid && close[0] != '\n' && '\n' in mid
    ensures SubSpans(open + mid + close + rest, open, close, false, keep)
         == [open[0]] + SubSpans((open + mid + close + rest)[1..], open, close, false, keep)
  {
    var s := open + mid + close + rest;
    assert open <= s;
    assert s[|open|..] == mid + close + rest;
    FindCloseNewline(mid, close, rest);
  }

  // ---------------------------------------------------------------------------
  // The seven substitutions

  function RemoveCommandName(s: string): string
  {
    SubSpans(s, "<command-name>", "</command-name>", false, false)
  }

  function RemoveCommandMessage(s: string): string
  {
    SubSpans(s, "<command-message>", "</command-message>", false, false)
  }

  function RemoveCommandArgs(s: string): string
  {
    SubSpans(s, "<command-args>", "</command-args>", false, false)
  }

  function RemoveLocalCommandStdout(s: string): string
  {
    SubSpans(s, "<local-command-stdout>", "</local-command-stdout>", true, false)
  }

  /** Keeps the inner text of each `<user-memory-input>` span. */
  function UnwrapUserMemoryInput(s: string): string
  {
    SubSpans(s, "<user-memory-input>", "</user-memory-input>", false, true)
  }

  function RemoveCaveat(s: string): string
  {
    SubSpans(s, "Caveat:", "user explicitly asks you to.", true, false)
  }

  function RemoveSystemReminders(s: string): string
  {
    SubSpans(s, "<system-reminder>", "</system-reminder>", true, false)
  }

  /** The seven substitutions, in the order they are applied. */
  function Substitute(text: string): string
  {
    var t1 := RemoveCommandName(text);
    var t2 := RemoveCommandMessage(t1);
    var t3 := RemoveCommandArgs(t2);
    var t4 := RemoveLocalCommandStdout(t3);
    var t5 := UnwrapUserMemoryInput(t4);
    var t6 := RemoveCaveat(t5);
    RemoveSystemReminders(t6)
  }

  const Interrupted: string := "INTERRUPTED"
  const SessionContinuation: string := "SESSION_CONTINUATION"
  const InterruptMarker: string := "Request interrupted by user"
  const ContinuationMarker: string := "This session is being continued from a previous conversation"

  /** `clean_user_message`. */
  function CleanUserMessage(text: string): string
  {
    if Contains(text, "[Request interrupted by user]") || Contains(text, InterruptMarker) then Interrupted
    else if Contains(text, ContinuationMarker) then SessionContinuation
    else Strip(Substitute(text))
  }

  // ---------------------------------------------------------------------------
  // Properties

  lemma {:induction false} ContainsLength(s: string, sub: string)
    requires Contains(s, sub)
    ensures |sub| <= |s|
    decreases |s|
  {
    if !(sub <= s) {
      ContainsLength(s[1..], sub);
    }
  }

  /** The bracketed form of the interrupt marker contains the plain form, so the interrupt
      test is: the text contains `Request interrupted by user`. */
  lemma InterruptTest(text: string)
    ensures Contains(text, "[Request interrupted by user]") || Contains(text, InterruptMarker)
        <==> Contains(text, InterruptMarker)
  {
    var bracketed := "[Request interrupted by user]";
    if Contains(text, bracketed) {
      ContainsAt(text, bracketed);
      var i :| 0 <= i <= |text| && bracketed <= text[i..];
      assert text[i..][1..] == text[i + 1..];
      assert bracketed[1..][..|InterruptMarker|] == InterruptMarker;
      assert text[i + 1..][..|InterruptMarker|] == InterruptMarker;
      ContainsOccurrence(text, InterruptMarker, i + 1);
    }
  }

  /** The sentinel checks come first and the interrupt check wins over the continuation
      check; otherwise the result is the stripped substituted text. */
  lemma CleanCases(text: string)
    ensures Contains(text, InterruptMarker) ==> CleanUserMessage(text) == Interrupted
    ensures !Contains(text, InterruptMarker) && Contains(text, ContinuationMarker) ==>
              CleanUserMessage(text) == SessionContinuation
    ensures !Contains(text, InterruptMarker) && !Contains(text, ContinuationMarker) ==>
              CleanUserMessage(text) == Strip(Substitute(text))
  {
    InterruptTest(text);
  }

  lemma SubstituteShorter(text: string)
    ensures |Substitute(text)| <= |text|
  {
    var t1 := RemoveCommandName(text);
    SubSpansShorter(text, "<command-name>", "</command-name>", false, false);
    var t2 := RemoveCommandMessage(t1);
    SubSpansShorter(t1, "<command-message>", "</command-message>", false, false);
    var t3 := RemoveCommandArgs(t2);
    SubSpansShorter(t2, "<command-args>", "</command-args>", false, false);
    var t4 := RemoveLocalCommandStdout(t3);
    SubSpansShorter(t3, "<local-command-stdout>", "</local-command-stdout>", true, false);
    var t5 := UnwrapUserMemoryInput(t4);
    SubSpansShorter(t4, "<user-memory-input>", "</user-memory-input>", false, true);
    var t6 := RemoveCaveat(t5);
    SubSpansShorter(t5, "Caveat:", "user explicitly asks you to.", true, false);
    SubSpansShorter(t6, "<system-reminder>", "</system-reminder>", true, false);
  }

  /** Cleaning never lengthens a message (a sentinel is shorter than the marker that
      triggers it), and unless a sentinel is returned the result has no leading or
      trailing whitespace. */
  lemma CleanShape(text: string)
    ensures |CleanUserMessage(text)| <= |text|
    ensures var r := CleanUserMessage(text);
            r == Interrupted || r == SessionContinuation || r == [] || (!IsSpace(r[0]) && !IsSpace(r[|r| - 1]))
  {
    InterruptTest(text);
    if Contains(text, InterruptMarker) {
      ContainsLength(text, InterruptMarker);
    } else if Contains(text, ContinuationMarker) {
      ContainsLength(text, ContinuationMarker);
    } else {
      SubstituteShorter(text);
      StripSlice(Substitute(text));
      StripNoOuterSpace(Substitute(text));
    }
  }

  /** A text with no `<`, no `Caveat:` and neither marker is only stripped. */
  lemma CleanPlainText(text: string)
    requires '<' !in text && !Contains(text, "Caveat:")
    requires !Contains(text, InterruptMarker) && !Contains(text, ContinuationMarker)
    ensures CleanUserMessage(text) == Strip(text)
  {
    InterruptTest(text);
    NotContainsChar(text, "<command-name>");
    SubSpansIdentity(text, "<command-name>", "</command-name>", false, false);
    NotContainsChar(text, "<command-message>");
    SubSpansIdentity(text, "<command-message>", "</command-message>", false, false);
    NotContainsChar(text, "<command-args>");
    SubSpansIdentity(text, "<command-args>", "</command-args>", false, false);
    NotContainsChar(text, "<local-command-stdout>");
    SubSpansIdentity(text, "<local-command-stdout>", "</local-command-stdout>", true, false);
    NotContainsChar(text, "<user-memory-input>");
    SubSpansIdentity(text, "<user-memory-input>", "</user-memory-input>", false, true);
    SubSpansIdentity(text, "Caveat:", "user explicitly asks you to.", true, false);
    NotContainsChar(text, "<system-reminder>");
    SubSpansIdentity(text, "<system-reminder>", "</system-reminder>", true, false);
  }

  /** A command-name span on one line is removed; one that crosses a line is kept, while a
      system reminder is removed across lines. */
  lemma TagRules(mid: string, rest: string)
    requires '<' !in mid
    ensures '\n' !in mid ==> RemoveCommandName("<command-name>" + mid + "</command-name>" + rest) == RemoveCommandName(rest)
    ensures '\n' in mid ==>
              (RemoveCommandName("<command-name>" + mid + "</command-name>" + rest)
               == "<" + RemoveCommandName(("<command-name>" + mid + "</command-name>" + rest)[1..]))
    ensures RemoveSystemReminders("<system-reminder>" + mid + "</system-reminder>" + rest) == RemoveSystemReminders(rest)
    ensures '\n' !in mid ==>
              (UnwrapUserMemoryInput("<user-memory-input>" + mid + "</user-memory-input>" + rest)
               == mid + UnwrapUserMemoryInput(rest))
  {
    if '\n' !in mid {
      SubSpansSpan(mid, rest, "<command-name>", "</command-name>", false, false);
      SubSpansSpan(mid, rest, "<user-memory-input>", "</user-memory-input>", false, true);
    } else {
      SubSpansKeepsMultiline(mid, rest, "<command-name>", "</command-name>", false);
    }
    SubSpansSpan(mid, rest, "<system-reminder>", "</system-reminder>", true, false);
  }

  /** Stripping keeps a text free of tags, caveats and markers. */
  lemma StripKeepsPlain(text: string)
    requires '<' !in text && !Contains(text, "Caveat:")
    requires !Contains(text, InterruptMarker) && !Contains(text, ContinuationMarker)
    ensures var r := Strip(text);
            '<' !in r && !Contains(r, "Caveat:") && !Contains(r, InterruptMarker) && !Contains(r, ContinuationMarker)
  {
    StripSlice(text);
    var k := StripStart(text);
    var n := k + |Strip(text)|;
    forall sub | sub in {"Caveat:", InterruptMarker, ContinuationMarker}
      ensures !Contains(Strip(text), sub)
    {
      if Contains(Strip(text), sub) {
        ContainsWithin(text, sub, k, n);
      }
    }
  }

  /** Cleaning an already clean message changes nothing when it holds no tag or caveat. */
  lemma CleanIdempotentOnPlainText(text: string)
    requires '<' !in text && !Contains(text, "Caveat:")
    requires !Contains(text, InterruptMarker) && !Contains(text, ContinuationMarker)
    ensures CleanUserMessage(CleanUserMessage(text)) == CleanUserMessage(text)
  {
    CleanPlainText(text);
    StripKeepsPlain(text);
    CleanPlainText(Strip(text));
    StripIdempotent(text);
  }
}

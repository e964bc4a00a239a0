/** The auto-space stripper of kbd/autospace.js and its memory across events. */
module AutoSpace {
  import opened Prelude
  import opened Keystrokes

  const SPACE: Unit := 32
  const WINDOW_MS := 100

  // ! . , ? : ; ' " ) ] }
  predicate IsPunctuation(u: Unit) {
    u == 33 || u == 46 || u == 44 || u == 63 || u == 58 || u == 59 || u == 39 || u == 34 || u == 41 || u == 93
      || u == 125
  }

  datatype Memory = Memory(lastChar: Option<Unit>, lastPunctuation: int)

  predicate LoneSpaceAfterPunctuation(m: Memory, chars: Text, now: int) {
    && chars != [] && chars[0] == SPACE
    && m.lastChar.Some? && IsPunctuation(m.lastChar.value) && now - m.lastPunctuation < WINDOW_MS
  }

  predicate PunctuationSpacePair(chars: Text) {
    |chars| == 2 && IsPunctuation(chars[0]) && chars[1] == SPACE
  }

  predicate AutoSpaceShape(m: Memory, chars: Text, now: int) {
    LoneSpaceAfterPunctuation(m, chars, now) || PunctuationSpacePair(chars)
  }

  function Strip(m: Memory, chars: Text, now: int): Text {
    if LoneSpaceAfterPunctuation(m, chars, now) then chars[1..]
    else if PunctuationSpacePair(chars) then chars[..1]
    else chars
  }

  predicate MentionsPunctuation(t: Text) {
    exists i :: 0 <= i < |t| && IsPunctuation(t[i])
  }

  /** `active` is false off Android and on sensitive fields, where text and memory pass untouched. */
  function Filter(m: Memory, chars: Text, now: int, active: bool): (Memory, Text) {
    if !active then (m, chars)
    else
      var kept := Strip(m, chars, now);
      (Memory(if kept == [] then m.lastChar else Some(kept[|kept| - 1]),
              if MentionsPunctuation(kept) then now else m.lastPunctuation), kept)
  }

  /** Text passes unchanged unless it has one of the two shapes, and then it loses exactly one space at an end. */
  lemma FilterStripsOneSpaceIff(m: Memory, chars: Text, now: int, active: bool)
    ensures var kept := Filter(m, chars, now, active).1;
            && (kept == chars <==> !active || !AutoSpaceShape(m, chars, now))
            && (kept != chars ==> chars == [SPACE] + kept || chars == kept + [SPACE])
  {
    if PunctuationSpacePair(chars) {
      assert chars == chars[..1] + [SPACE];
    }
    if LoneSpaceAfterPunctuation(m, chars, now) {
      assert chars == [SPACE] + chars[1..];
    }
  }

  const PUNCTUATION := "!.,?:;'\")]}"

  /** The characters after which a space is suspect. */
  lemma PunctuationIsSet(u: Unit)
    ensures IsPunctuation(u) <==> exists i :: 0 <= i < |PUNCTUATION| && PUNCTUATION[i] as int == u
  {
    if IsPunctuation(u) {
      var i := if u == 33 then 0 else if u == 46 then 1 else if u == 44 then 2 else if u == 63 then 3
        else if u == 58 then 4 else if u == 59 then 5 else if u == 39 then 6 else if u == 34 then 7
        else if u == 41 then 8 else if u == 93 then 9 else 10;
      assert PUNCTUATION[i] as int == u;
    }
  }

  // ------------------------------------------------------------- what is remembered

  datatype Call = Call(chars: Text, now: int)

  /** The memory after these calls. */
  function After(m: Memory, calls: seq<Call>): Memory
    decreases calls
  {
    if calls == [] then m else After(Filter(m, calls[0].chars, calls[0].now, true).0, calls[1..])
  }

  /** What these calls have let through, one text each. */
  function Outputs(m: Memory, calls: seq<Call>): (out: seq<Text>)
    ensures |out| == |calls|
    decreases calls
  {
    if calls == [] then []
    else
      var (next, kept) := Filter(m, calls[0].chars, calls[0].now, true);
      [kept] + Outputs(next, calls[1..])
  }

  /** Everything let through, and the last character of it. */
  function LastOf(text: Text, before: Option<Unit>): Option<Unit> {
    if text == [] then before else Some(text[|text| - 1])
  }

  /** When the last of the calls that let punctuation through was made. */
  function LastMention(calls: seq<Call>, out: seq<Text>, before: int): int
    requires |out| == |calls|
    decreases calls
  {
    if calls == [] then before
    else if MentionsPunctuation(out[|out| - 1]) then calls[|calls| - 1].now
    else LastMention(calls[..|calls| - 1], out[..|out| - 1], before)
  }

  lemma {:induction false} FirstMention(calls: seq<Call>, out: seq<Text>, before: int)
    requires |out| == |calls| && calls != []
    ensures LastMention(calls, out, before) ==
            LastMention(calls[1..], out[1..], if MentionsPunctuation(out[0]) then calls[0].now else before)
    decreases calls
  {
    var n := |calls| - 1;
    if n > 0 {
      assert calls[1..][..n - 1] == calls[..n][1..] && out[1..][..n - 1] == out[..n][1..];
      FirstMention(calls[..n], out[..n], before);
    }
  }

  lemma LastOfJoin(a: Text, b: Text, before: Option<Unit>)
    ensures LastOf(a + b, before) == LastOf(b, LastOf(a, before))
  {
    if b == [] {
      assert a + b == a;
    }
  }

  /** The filter remembers the last character it has let through and when it last let punctuation through. */
  lemma {:induction false} MemoryIsHistory(m: Memory, calls: seq<Call>)
    ensures var out := Outputs(m, calls);
            After(m, calls) == Memory(LastOf(Join(out), m.lastChar), LastMention(calls, out, m.lastPunctuation))
    decreases calls
  {
    if calls != [] {
      var (next, kept) := Filter(m, calls[0].chars, calls[0].now, true);
      var rest := Outputs(next, calls[1..]);
      MemoryIsHistory(next, calls[1..]);
      assert Outputs(m, calls)[1..] == rest;
      FirstMention(calls, Outputs(m, calls), m.lastPunctuation);
      LastOfJoin(kept, Join(rest), m.lastChar);
    }
  }

  /**
   After any calls on a new filter, a space arriving by itself is taken out if and only if
   the last character let through was punctuation and less than a tenth of a second ago.
   */
  lemma LoneSpaceStrippedIff(calls: seq<Call>, now: int)
    ensures var out := Outputs(Memory(None, 0), calls);
            var sent := Join(out);
            Filter(After(Memory(None, 0), calls), [SPACE], now, true).1 == [] <==>
              && sent != [] && IsPunctuation(sent[|sent| - 1])
              && now - LastMention(calls, out, 0) < 100
  {
    MemoryIsHistory(Memory(None, 0), calls);
  }

  class AutoSpaceFilter {
    var lastCharSent: Option<Unit>
    var lastPunctuationTime: int

    ghost function View(): Memory
      reads this
    {
      Memory(lastCharSent, lastPunctuationTime)
    }

    constructor ()
      ensures View() == Memory(None, 0)
    {
      lastCharSent, lastPunctuationTime := None, 0;
    }

    method FilterText(chars: Text, now: int, active: bool) returns (result: Text)
      modifies this
      ensures (View(), result) == Filter(old(View()), chars, now, active)
    {
      if chars == [] || !active {
        return chars;
      }
      ghost var m := View();
      result := [];
      for i := 0 to |chars|
        invariant lastCharSent == m.lastChar
        invariant lastPunctuationTime == if MentionsPunctuation(result) then now else m.lastPunctuation
        invariant result == KeptUpTo(m, chars, now, i)
        invariant i == 0 ==> lastPunctuationTime == m.lastPunctuation
      {
        KeptStep(m, chars, now, i);
        var previous := if i > 0 then Some(chars[i - 1]) else lastCharSent;
        var autoSpace := (i == 0 && now - lastPunctuationTime < WINDOW_MS) || (|chars| == 2 && i == 1);
        if chars[i] == SPACE && previous.Some? && IsPunctuation(previous.value) && autoSpace {
          continue;
        }
        MentionsSnoc(result, chars[i]);
        result := result + [chars[i]];
        if IsPunctuation(chars[i]) {
          lastPunctuationTime := now;
        }
      }
      assert chars[..|chars|] == chars;
      if result != [] {
        lastCharSent := Some(result[|result| - 1]);
      }
    }
  }

  lemma MentionsSnoc(t: Text, u: Unit)
    ensures MentionsPunctuation(t + [u]) <==> MentionsPunctuation(t) || IsPunctuation(u)
  {
    assert (t + [u])[|t|] == u;
    forall i | 0 <= i < |t| ensures (t + [u])[i] == t[i] {
    }
    if MentionsPunctuation(t) {
      var i :| 0 <= i < |t| && IsPunctuation(t[i]);
      assert IsPunctuation((t + [u])[i]);
    }
  }

  /** The positions the loop leaves out: the first, or the second of a pair. */
  predicate Skipped(m: Memory, chars: Text, now: int, i: nat)
    requires i < |chars|
  {
    && chars[i] == SPACE
    && (if i > 0 then IsPunctuation(chars[i - 1]) else m.lastChar.Some? && IsPunctuation(m.lastChar.value))
    && ((i == 0 && now - m.lastPunctuation < WINDOW_MS) || (|chars| == 2 && i == 1))
  }

  /** What the loop has kept of the first `i` units. */
  function KeptUpTo(m: Memory, chars: Text, now: int, i: nat): Text
    requires i <= |chars|
  {
    if LoneSpaceAfterPunctuation(m, chars, now) then chars[Min(1, i)..i]
    else if PunctuationSpacePair(chars) then chars[..Min(1, i)]
    else chars[..i]
  }

  lemma KeptStep(m: Memory, chars: Text, now: int, i: nat)
    requires i < |chars|
    ensures KeptUpTo(m, chars, now, i + 1) ==
            KeptUpTo(m, chars, now, i) + if Skipped(m, chars, now, i) then [] else [chars[i]]
  {
  }
}

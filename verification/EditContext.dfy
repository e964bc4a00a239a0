/**
 The EditContext path of kbd/ime-input.js: range updates of a local buffer are
 mirrored to the remote step by step, or on a slow link withheld and sent once
 when the composition ends; a word already committed and then re-composed is
 erased first. One Backspace removes one code unit of the remote text.
 */
module EditContext {
  import opened Prelude
  import opened Keystrokes
  import A = AutoSpace

  datatype Ec = Ec(
    stripping: bool,
    buffer: Text,
    composing: bool,
    suppressed: bool,
    committedWord: bool,
    reconciled: bool,
    deferred: bool,
    memory: A.Memory,
    remote: Text)

  datatype Update = Update(start: nat, end: nat, text: Text, commitOnly: bool, now: int)

  /** JavaScript's slice: offsets beyond the text are the text's end. */
  function Slice(t: Text, start: nat, end: nat): Text {
    var lo := Min(start, |t|);
    t[lo..Max(lo, Min(end, |t|))]
  }

  function NewBuffer(buffer: Text, u: Update): Text {
    buffer[..Min(u.start, |buffer|)] + u.text + buffer[Min(Max(u.start, u.end), |buffer|)..]
  }

  /** Backspaces for the replaced range; a range the shadow buffer never held counts its own length. */
  function DeletedCount(buffer: Text, u: Update): nat {
    var end := Max(u.start, u.end);
    var deleted := Slice(buffer, u.start, end);
    if deleted != [] then |deleted| else end - u.start
  }

  predicate IsBoundary(u: Unit) {
    u == 32 || u == 10 || u == 13 || u == 9
  }

  /** The first non-empty composing update of an already committed word erases that many units. */
  function Reconcile(s: Ec, u: Update): Ec {
    var text := NewBuffer(s.buffer, u);
    if !s.composing || s.reconciled || text == [] then s
    else if DeletedCount(s.buffer, u) == 0 && s.committedWord && u.text == text
    then s.(reconciled := true, committedWord := false, remote := Erase(s.remote, |text|))
    else s.(reconciled := true)
  }

  /** Mirrors one update; composing text goes out as it is, committed text through the filter. */
  function Mirror(s: Ec, u: Update): Ec {
    var erased := Erase(s.remote, DeletedCount(s.buffer, u));
    if s.composing then s.(remote := erased + u.text, buffer := NewBuffer(s.buffer, u))
    else
      var (memory, kept) := if u.text == [] then (s.memory, []) else A.Filter(s.memory, u.text, u.now, s.stripping);
      s.(remote := erased + kept, memory := memory, buffer := [],
         committedWord := if kept == [] then s.committedWord else !IsBoundary(kept[|kept| - 1]))
  }

  function ApplyUpdate(s: Ec, u: Update): Ec {
    var t := Reconcile(s, u);
    if t.composing && (t.suppressed || u.commitOnly) then t.(suppressed := true, buffer := NewBuffer(s.buffer, u))
    else Mirror(t, u)
  }

  /** An update that changes nothing outside a composition says nothing about a key that may have been a delete. */
  predicate IsPhantom(composing: bool, u: Update) {
    !composing && u.text == [] && u.end <= u.start
  }

  /** Any other update cancels a deferred Backspace. */
  function TextUpdate(s: Ec, u: Update): Ec {
    ApplyUpdate(s, u).(deferred := s.deferred && IsPhantom(s.composing, u))
  }

  /** A Backspace on an empty buffer goes out at once; any other delete key, or one that may be, is deferred. */
  function DeleteKey(s: Ec, isBackspace: bool): Ec {
    if isBackspace && s.buffer == [] then s.(remote := Erase(s.remote, 1)) else s.(deferred := true)
  }

  /** The timer of a deferred Backspace; it deletes only in the field that had the key. */
  function TimerFires(s: Ec, sameField: bool): Ec {
    if !s.deferred then s
    else s.(deferred := false, remote := if sameField then Erase(s.remote, 1) else s.remote)
  }

  function CompositionStart(s: Ec): Ec {
    s.(composing := true, reconciled := false)
  }

  function CompositionEnd(s: Ec, now: int): Ec {
    var (memory, kept) := if s.suppressed && s.buffer != [] then A.Filter(s.memory, s.buffer, now, s.stripping)
      else (s.memory, []);
    s.(remote := s.remote + kept, memory := memory, suppressed := false, composing := false,
       committedWord := false, reconciled := false, buffer := [])
  }

  function Updates(s: Ec, us: seq<Update>): Ec
    decreases us
  {
    if us == [] then s else Updates(TextUpdate(s, us[0]), us[1..])
  }

  function Compose(s: Ec, us: seq<Update>, now: int): Ec {
    CompositionEnd(Updates(CompositionStart(s), us), now)
  }

  /** Each update replaces a range that reaches the end of the buffer it meets. */
  ghost predicate EndAnchored(buffer: Text, us: seq<Update>)
    decreases us
  {
    us != [] ==> && us[0].start <= us[0].end == |buffer|
                 && EndAnchored(buffer[..us[0].start] + us[0].text, us[1..])
  }

  function FinalBuffer(buffer: Text, us: seq<Update>): Text
    decreases us
  {
    if us == [] then buffer else FinalBuffer(buffer[..Min(us[0].start, |buffer|)] + us[0].text, us[1..])
  }

  /** The mirrored and the withheld run of one composition: they differ by the buffer the latter still owes. */
  predicate Owes(m: Ec, h: Ec) {
    && m.composing && h.composing && !m.suppressed
    && m.buffer == h.buffer && m.reconciled == h.reconciled && m.committedWord == h.committedWord
    && m.memory == h.memory && m.stripping == h.stripping
    && m.remote == h.remote + h.buffer
    && (!m.reconciled ==> m.buffer == [])
  }

  lemma ReconcileOwes(m: Ec, h: Ec, u: Update, v: Update)
    requires Owes(m, h) && u.start <= u.end == |m.buffer| && v == u.(commitOnly := v.commitOnly)
    ensures Reconcile(m, u).remote == Reconcile(h, v).remote + h.buffer
    ensures Reconcile(m, u).buffer == m.buffer && Reconcile(m, u).committedWord == Reconcile(h, v).committedWord
  {
    assert h.buffer == [] ==> h.remote + h.buffer == h.remote;
    assert h.buffer == [] ==> Reconcile(h, v).remote + h.buffer == Reconcile(h, v).remote;
  }

  /** Erasing the end of a buffer behind any base and typing replaces the buffer's end. */
  lemma ReplaceEnd(base: Text, buffer: Text, k: nat, typed: Text)
    requires k <= |buffer|
    ensures Erase(base + buffer, |buffer| - k) + typed == base + (buffer[..k] + typed)
  {
    assert buffer == buffer[..k] + buffer[k..];
    assert base + buffer == (base + buffer[..k]) + buffer[k..];
    EraseTail(base + buffer[..k], buffer[k..]);
  }

  lemma EndAnchoredEffect(buffer: Text, u: Update)
    requires u.start <= u.end == |buffer|
    ensures NewBuffer(buffer, u) == buffer[..u.start] + u.text && DeletedCount(buffer, u) == |buffer| - u.start
  {
    assert Slice(buffer, u.start, u.end) == buffer[u.start..];
  }

  lemma MirroredUpdate(m: Ec, u: Update)
    requires m.composing && !m.suppressed && !u.commitOnly && u.start <= u.end == |m.buffer|
    ensures var r := Reconcile(m, u);
            ApplyUpdate(m, u) ==
              r.(remote := Erase(r.remote, |m.buffer| - u.start) + u.text, buffer := m.buffer[..u.start] + u.text)
  {
    EndAnchoredEffect(m.buffer, u);
  }

  lemma WithheldUpdate(h: Ec, v: Update)
    requires h.composing && (h.suppressed || v.commitOnly) && v.start <= v.end == |h.buffer|
    ensures ApplyUpdate(h, v) == Reconcile(h, v).(suppressed := true, buffer := h.buffer[..v.start] + v.text)
  {
    EndAnchoredEffect(h.buffer, v);
  }

  /** Reconciling leaves the flags as the composition needs them. */
  lemma ReconcileFlags(s: Ec, u: Update)
    requires s.composing
    ensures var t := Reconcile(s, u);
            && t.composing && t.buffer == s.buffer && t.suppressed == s.suppressed && t.memory == s.memory
               && t.stripping == s.stripping
            && (t.reconciled <==> s.reconciled || NewBuffer(s.buffer, u) != [])
  {
  }

  lemma UpdateOwes(m: Ec, h: Ec, u: Update, v: Update)
    requires Owes(m, h) && u.start <= u.end == |m.buffer| && v == u.(commitOnly := v.commitOnly)
    requires !u.commitOnly && (h.suppressed || v.commitOnly)
    ensures Owes(TextUpdate(m, u), TextUpdate(h, v)) && TextUpdate(h, v).suppressed
    ensures TextUpdate(m, u).buffer == m.buffer[..u.start] + u.text
  {
    ReconcileOwes(m, h, u, v);
    ReconcileFlags(m, u);
    ReconcileFlags(h, v);
    EndAnchoredEffect(m.buffer, u);
    MirroredUpdate(m, u);
    WithheldUpdate(h, v);
    ReplaceEnd(Reconcile(h, v).remote, m.buffer, u.start, u.text);
  }

  /** The same edits, mirrored in `us`; in `vs` the link may ask for withholding. */
  ghost predicate SameEdits(us: seq<Update>, vs: seq<Update>) {
    |us| == |vs| && forall i :: 0 <= i < |us| ==> !us[i].commitOnly && vs[i] == us[i].(commitOnly := vs[i].commitOnly)
  }

  lemma SameEditsTail(us: seq<Update>, vs: seq<Update>)
    requires SameEdits(us, vs) && us != []
    ensures !us[0].commitOnly && vs[0] == us[0].(commitOnly := vs[0].commitOnly) && SameEdits(us[1..], vs[1..])
  {
  }

  lemma FirstUpdate(s: Ec, us: seq<Update>, next: Ec)
    requires us != [] && next == TextUpdate(s, us[0])
    ensures Updates(s, us) == Updates(next, us[1..])
  {
  }

  lemma FirstEdit(buffer: Text, us: seq<Update>, next: Text)
    requires us != [] && EndAnchored(buffer, us) && next == buffer[..us[0].start] + us[0].text
    ensures EndAnchored(next, us[1..]) && FinalBuffer(buffer, us) == FinalBuffer(next, us[1..])
  {
  }

  lemma {:induction false} UpdatesOwe(m: Ec, h: Ec, us: seq<Update>, vs: seq<Update>)
    requires Owes(m, h) && EndAnchored(m.buffer, us) && SameEdits(us, vs)
    requires if us == [] then h.buffer == [] || h.suppressed else h.suppressed || vs[0].commitOnly
    ensures Owes(Updates(m, us), Updates(h, vs)) && Updates(m, us).buffer == FinalBuffer(m.buffer, us)
    ensures Updates(h, vs).buffer == [] || Updates(h, vs).suppressed
    decreases us, 1
  {
    if us != [] {
      SameEditsTail(us, vs);
      UpdateOwes(m, h, us[0], vs[0]);
      OweRest(m, h, TextUpdate(m, us[0]), TextUpdate(h, vs[0]), us, vs);
    }
  }

  lemma {:induction false} OweRest(m: Ec, h: Ec, m1: Ec, h1: Ec, us: seq<Update>, vs: seq<Update>)
    requires us != [] && EndAnchored(m.buffer, us) && SameEdits(us, vs) && SameEdits(us[1..], vs[1..])
    requires m1 == TextUpdate(m, us[0]) && h1 == TextUpdate(h, vs[0])
    requires Owes(m1, h1) && h1.suppressed && m1.buffer == m.buffer[..us[0].start] + us[0].text
    ensures Owes(Updates(m, us), Updates(h, vs)) && Updates(m, us).buffer == FinalBuffer(m.buffer, us)
    ensures Updates(h, vs).buffer == [] || Updates(h, vs).suppressed
    decreases us, 0
  {
    FirstEdit(m.buffer, us, m1.buffer);
    UpdatesOwe(m1, h1, us[1..], vs[1..]);
    FirstUpdate(m, us, m1);
    FirstUpdate(h, vs, h1);
  }

  /**
   From an empty buffer, withholding every step from the first and sending the
   text once leaves the remote as mirroring each step does, if and only if the
   committed text has no auto-space shape (or the filter is off). A re-composed
   word is reconciled alike in both.
   */
  lemma WithholdingEqualsMirroring(s: Ec, us: seq<Update>, vs: seq<Update>, now: int)
    requires s.buffer == [] && !s.suppressed && EndAnchored([], us) && SameEdits(us, vs)
    requires vs != [] ==> vs[0].commitOnly
    ensures Compose(s, us, now).remote == Compose(s, vs, now).remote
            <==> !s.stripping || !A.AutoSpaceShape(s.memory, FinalBuffer([], us), now)
  {
    var start := CompositionStart(s);
    assert start.remote + [] == start.remote;
    UpdatesOwe(start, start, us, vs);
    var m, h := Updates(start, us), Updates(start, vs);
    UpdatesKeepMemory(start, us);
    A.FilterStripsOneSpaceIff(s.memory, h.buffer, now, s.stripping);
    assert m.remote + [] == m.remote;
    var kept := A.Filter(s.memory, h.buffer, now, s.stripping).1;
    if kept != h.buffer {
      assert |kept| < |h.buffer|;
    }
  }

  lemma {:induction false} UpdatesKeepMemory(s: Ec, us: seq<Update>)
    requires s.composing
    ensures Updates(s, us).memory == s.memory && Updates(s, us).stripping == s.stripping && Updates(s, us).composing
    decreases us
  {
    if us != [] {
      UpdatesKeepMemory(TextUpdate(s, us[0]), us[1..]);
    }
  }

  // ------------------------------------------------------- what the remote then shows

  /** An update of a known buffer replaces the range it names, and erases as many units as that held. */
  lemma UpdateSplices(before: Text, mid: Text, after: Text, u: Update)
    requires u.start == |before| && u.end == |before| + |mid|
    ensures NewBuffer(before + mid + after, u) == before + u.text + after
    ensures DeletedCount(before + mid + after, u) == |mid|
  {
    var buffer := before + mid + after;
    assert buffer[..|before|] == before && buffer[|before| + |mid|..] == after;
    assert Slice(buffer, u.start, u.end) == buffer[|before|..|before| + |mid|] == mid;
  }

  /** What a range names beyond the buffer is not erased. */
  lemma RangeIsClipped(buffer: Text, u: Update)
    requires u.start < |buffer| <= u.end
    ensures NewBuffer(buffer, u) == buffer[..u.start] + u.text && DeletedCount(buffer, u) == |buffer| - u.start
  {
    assert Slice(buffer, u.start, u.end) == buffer[u.start..];
  }

  /** Of a buffer never seen, an update erases its own range. */
  lemma UnseenRangeErases(u: Update)
    ensures NewBuffer([], u) == u.text && DeletedCount([], u) == Max(0, u.end - u.start)
  {
    assert [] + u.text + [] == u.text;
  }

  /** Mirroring a composition step by step, the remote is the text in front followed by the buffer. */
  lemma {:induction false} MirroredBuffer(m: Ec, base: Text, us: seq<Update>)
    requires m.composing && !m.suppressed && (!m.committedWord || m.reconciled) && m.remote == base + m.buffer
    requires EndAnchored(m.buffer, us) && forall i :: 0 <= i < |us| ==> !us[i].commitOnly
    ensures var t := Updates(m, us);
            && t.remote == base + t.buffer && t.buffer == FinalBuffer(m.buffer, us)
            && t.composing && !t.suppressed && t.memory == m.memory
    decreases us
  {
    if us != [] {
      var t := TextUpdate(m, us[0]);
      MirroredUpdate(m, us[0]);
      ReconcileFlags(m, us[0]);
      ReplaceEnd(base, m.buffer, us[0].start, us[0].text);
      FirstEdit(m.buffer, us, t.buffer);
      MirroredBuffer(t, base, us[1..]);
    }
  }

  /** A composition mirrored from an empty buffer adds exactly its final text, and leaves everything as before it. */
  lemma ComposedTextIsSent(s: Ec, us: seq<Update>, now: int)
    requires s.buffer == [] && !s.suppressed && !s.committedWord && EndAnchored([], us)
    requires forall i :: 0 <= i < |us| ==> !us[i].commitOnly
    ensures var t := Compose(s, us, now);
            && t.remote == s.remote + FinalBuffer([], us) && t.memory == s.memory && t.buffer == []
            && !t.composing && !t.suppressed && !t.committedWord && !t.reconciled
  {
    assert s.remote + [] == s.remote;
    MirroredBuffer(CompositionStart(s), s.remote, us);
    var m := Updates(CompositionStart(s), us);
    assert m.remote + [] == m.remote;
  }

  /** The update hands back, at once and whole, a word that is already committed. */
  predicate HandsBackWord(s: Ec, u: Update) {
    s.committedWord && s.buffer == [] && u.end <= u.start
  }

  /** The first text of a composition erases a word handed back whole, its own range otherwise, and follows. */
  lemma FirstTextAnswers(s: Ec, u: Update)
    requires s.composing && !s.reconciled && !s.suppressed && !u.commitOnly && NewBuffer(s.buffer, u) != []
    ensures var t := TextUpdate(s, u);
            && t.buffer == NewBuffer(s.buffer, u) && t.reconciled
            && t.remote == Erase(s.remote, if HandsBackWord(s, u) then |u.text| else DeletedCount(s.buffer, u)) + u.text
            && (t.committedWord <==> s.committedWord && !HandsBackWord(s, u))
  {
    if u.text == NewBuffer(s.buffer, u) && DeletedCount(s.buffer, u) == 0 {
      assert |NewBuffer(s.buffer, u)| ==
             Min(u.start, |s.buffer|) + |u.text| + (|s.buffer| - Min(Max(u.start, u.end), |s.buffer|));
      assert s.buffer == [];
    }
    if HandsBackWord(s, u) {
      UnseenRangeErases(u);
      assert Erase(Erase(s.remote, |u.text|), 0) == Erase(s.remote, |u.text|);
    }
  }

  /** A word handed back whole and then edited to the end of the composition: erased once, and then mirrored. */
  lemma RecomposedTextIsSent(s: Ec, us: seq<Update>, now: int)
    requires s.buffer == [] && !s.suppressed && s.committedWord && us != [] && EndAnchored([], us) && us[0].text != []
    requires forall i :: 0 <= i < |us| ==> !us[i].commitOnly
    ensures Compose(s, us, now).remote == Erase(s.remote, |us[0].text|) + FinalBuffer([], us)
  {
    var start := CompositionStart(s);
    UnseenRangeErases(us[0]);
    FirstTextAnswers(start, us[0]);
    var t := TextUpdate(start, us[0]);
    FirstEdit([], us, t.buffer);
    MirroredBuffer(t, Erase(s.remote, |us[0].text|), us[1..]);
    FirstUpdate(start, us, t);
    var m := Updates(start, us);
    assert m.remote + [] == m.remote;
  }

  /** Outside a composition an update that neither erases nor types changes nothing; any other drops a deferred key. */
  lemma PhantomsChangeNothing(s: Ec, u: Update)
    requires s.buffer == []
    ensures IsPhantom(s.composing, u) <==> !s.composing && u.text == [] && Max(0, u.end - u.start) == 0
    ensures IsPhantom(s.composing, u) ==> TextUpdate(s, u) == s
    ensures !IsPhantom(s.composing, u) ==> !TextUpdate(s, u).deferred
  {
    UnseenRangeErases(u);
    assert Erase(s.remote, 0) + [] == s.remote;
  }

  /** A withheld composition sends its text when it ends, once and through the filter, which remembers it. */
  lemma WithheldTextIsSent(h: Ec, now: int)
    ensures var t := CompositionEnd(h, now);
            && (h.suppressed && h.buffer != [] ==>
                  && t.remote == h.remote + A.Filter(h.memory, h.buffer, now, h.stripping).1
                  && t.memory == A.Filter(h.memory, h.buffer, now, h.stripping).0)
            && (!h.suppressed || h.buffer == [] ==> t.remote == h.remote && t.memory == h.memory)
            && t.buffer == [] && !t.composing && !t.suppressed && !t.committedWord && !t.reconciled
  {
    assert h.remote + [] == h.remote;
  }

  /** `kept` is `text`, or without one space at an end if it has an auto-space. */
  predicate Kept(s: Ec, text: Text, now: int, kept: Text) {
    if s.stripping && A.AutoSpaceShape(s.memory, text, now)
    then text == [A.SPACE] + kept || text == kept + [A.SPACE]
    else kept == text
  }

  /** Outside a composition nothing stays in the buffer. */
  lemma CommitEmptiesBuffer(s: Ec, u: Update)
    requires !s.composing
    ensures TextUpdate(s, u).buffer == [] && !TextUpdate(s, u).composing
  {
  }

  /** Outside a composition: the range is erased, the text follows, and only a word without its boundary is noted. */
  lemma CommitAnswers(s: Ec, u: Update) returns (kept: Text)
    requires !s.composing && s.buffer == []
    ensures var t := TextUpdate(s, u);
            && (if u.text == [] then kept == [] else Kept(s, u.text, u.now, kept))
            && t.remote == Erase(s.remote, Max(0, u.end - u.start)) + kept && t.buffer == [] && !t.composing
            && t.memory == (if u.text == [] then s.memory else A.Filter(s.memory, u.text, u.now, s.stripping).0)
            && (t.committedWord <==> if kept == [] then s.committedWord else kept[|kept| - 1] !in [32, 10, 13, 9])
  {
    UnseenRangeErases(u);
    if u.text == [] {
      kept := [];
      assert TextUpdate(s, u).remote == Erase(s.remote, Max(0, u.end - u.start)) + [];
    } else {
      A.FilterStripsOneSpaceIff(s.memory, u.text, u.now, s.stripping);
      kept := A.Filter(s.memory, u.text, u.now, s.stripping).1;
    }
  }

  /** A Backspace on an empty buffer deletes at once; any other delete key waits for its timer in the same field. */
  lemma DeleteKeyAnswers(s: Ec, isBackspace: bool)
    ensures var t := DeleteKey(s, isBackspace);
            if isBackspace && s.buffer == [] then t == s.(remote := Erase(s.remote, 1))
            else t.deferred && t.remote == s.remote && t.buffer == s.buffer
    ensures TimerFires(s, false) == s.(deferred := false)
    ensures TimerFires(s, true).remote == if s.deferred then Erase(s.remote, 1) else s.remote
  {
  }

  // ---------------------------------------------------------- deferred Backspaces

  /** What can come between a delete key and the timer of its deferred Backspace. */
  datatype Event = Updated(u: Update) | Started | Ended(now: int)

  function Handle(s: Ec, e: Event): Ec {
    match e
    case Updated(u) => TextUpdate(s, u)
    case Started => CompositionStart(s)
    case Ended(now) => CompositionEnd(s, now)
  }

  function HandleAll(s: Ec, events: seq<Event>): Ec
    decreases events
  {
    if events == [] then s else HandleAll(Handle(s, events[0]), events[1..])
  }

  /** Whether a composition is under way after the first `i` events. */
  function ComposingAt(composing: bool, events: seq<Event>, i: nat): bool
    requires i <= |events|
  {
    if i == 0 then composing
    else if events[i - 1].Updated? then ComposingAt(composing, events, i - 1)
    else events[i - 1].Started?
  }

  /** Every update comes outside a composition and changes nothing. */
  ghost predicate OnlyPhantoms(composing: bool, events: seq<Event>) {
    forall i :: 0 <= i < |events| && events[i].Updated? ==> IsPhantom(ComposingAt(composing, events, i), events[i].u)
  }

  lemma {:induction false} ComposingAtTail(composing: bool, events: seq<Event>, i: nat)
    requires 0 < i <= |events|
    ensures ComposingAt(composing, events, i) == ComposingAt(ComposingAt(composing, events, 1), events[1..], i - 1)
  {
    if i > 1 {
      ComposingAtTail(composing, events, i - 1);
      assert events[1..][i - 2] == events[i - 1];
    }
  }

  lemma OnlyPhantomsTail(composing: bool, events: seq<Event>)
    requires events != []
    ensures OnlyPhantoms(composing, events) <==>
              && (events[0].Updated? ==> IsPhantom(composing, events[0].u))
              && OnlyPhantoms(ComposingAt(composing, events, 1), events[1..])
  {
    var rest := events[1..];
    forall i | 0 < i < |events|
      ensures rest[i - 1] == events[i]
      ensures ComposingAt(composing, events, i) == ComposingAt(ComposingAt(composing, events, 1), rest, i - 1)
    {
      ComposingAtTail(composing, events, i);
    }
    if OnlyPhantoms(composing, events) {
      forall i | 0 <= i < |rest| && rest[i].Updated?
        ensures IsPhantom(ComposingAt(ComposingAt(composing, events, 1), rest, i), rest[i].u)
      {
        assert rest[i] == events[i + 1];
      }
    }
  }

  lemma {:induction false} DeferredSurvivesIff(s: Ec, events: seq<Event>)
    ensures HandleAll(s, events).deferred <==> s.deferred && OnlyPhantoms(s.composing, events)
    decreases events
  {
    if events != [] {
      OnlyPhantomsTail(s.composing, events);
      DeferredSurvivesIff(Handle(s, events[0]), events[1..]);
    }
  }

  /**
   A delete key on a non-empty buffer costs the remote one more character, when its
   timer fires in the same field, if and only if every update since, through any
   compositions begun and ended, came outside them and changed nothing.
   */
  lemma DeferredDeletesIff(s: Ec, isBackspace: bool, events: seq<Event>)
    requires !isBackspace || s.buffer != []
    ensures var t := HandleAll(DeleteKey(s, isBackspace), events);
            && TimerFires(t, true).remote ==
               (if OnlyPhantoms(s.composing, events) then Erase(t.remote, 1) else t.remote)
            && !TimerFires(t, true).deferred
  {
    DeferredSurvivesIff(DeleteKey(s, isBackspace), events);
  }

  // ------------------------------------------------------------- re-composed words

  /** Keys committed one update at a time, without composing. */
  function CommitKeys(s: Ec, keys: seq<Unit>, now: int): Ec
    decreases keys
  {
    if keys == [] then s else CommitKeys(TextUpdate(s, Update(0, 0, [keys[0]], false, now)), keys[1..], now)
  }

  lemma {:induction false} CommittedWordIsSent(s: Ec, keys: seq<Unit>, now: int)
    requires s.buffer == [] && !s.composing
    requires forall i :: 0 <= i < |keys| ==> !IsBoundary(keys[i])
    ensures var t := CommitKeys(s, keys, now);
            && t.remote == s.remote + keys && t.buffer == [] && !t.composing && t.suppressed == s.suppressed
            && (t.committedWord <==> keys != [] || s.committedWord)
    decreases keys
  {
    if keys != [] {
      var u := Update(0, 0, [keys[0]], false, now);
      A.FilterStripsOneSpaceIff(s.memory, [keys[0]], now, s.stripping);
      var t := TextUpdate(s, u);
      assert t.remote == s.remote + [keys[0]];
      CommittedWordIsSent(t, keys[1..], now);
      assert (s.remote + [keys[0]]) + keys[1..] == s.remote + keys;
    } else {
      assert s.remote + keys == s.remote;
    }
  }

  lemma OvertypeIff(before: Text, word: Text, again: Text)
    requires word != [] && again != []
    ensures Erase(before + word, |again|) + again == before + again <==>
            |again| == |word| || (|again| > |word| && before == [])
  {
    var kept := Erase(before + word, |again|);
    assert |kept| == Max(0, |before| + |word| - |again|);
    if |again| == |word| {
      EraseTail(before, word);
    }
    assert kept + again == before + again ==> |kept| == |before|;
  }

  lemma ReconcileErases(c: Ec, again: Text, now: int)
    requires c.composing && !c.reconciled && !c.suppressed && c.buffer == [] && c.committedWord && again != []
    ensures var t := TextUpdate(c, Update(0, 0, again, false, now));
            t.buffer == again && t.remote == Erase(c.remote, |again|) + again
  {
    var u := Update(0, 0, again, false, now);
    EndAnchoredEffect(c.buffer, u);
    assert NewBuffer(c.buffer, u) == again;
    MirroredUpdate(c, u);
  }

  lemma RecomposeErases(s: Ec, word: seq<Unit>, again: Text, now: int)
    requires s.buffer == [] && !s.composing && !s.suppressed && word != [] && again != []
    requires forall i :: 0 <= i < |word| ==> !IsBoundary(word[i])
    ensures var t := TextUpdate(CompositionStart(CommitKeys(s, word, now)), Update(0, 0, again, false, now));
            t.buffer == again && t.remote == Erase(s.remote + word, |again|) + again
  {
    CommittedWordIsSent(s, word, now);
    ReconcileErases(CompositionStart(CommitKeys(s, word, now)), again, now);
  }

  /**
   A word committed key by key and then handed back whole as a composition is
   replaced, not duplicated, if and only if the re-composed text has the word's
   length, or is longer and nothing stands before the word.
   */
  lemma RecomposeReplacesIff(s: Ec, word: seq<Unit>, again: Text, now: int)
    requires s.buffer == [] && !s.composing && !s.suppressed && word != [] && again != []
    requires forall i :: 0 <= i < |word| ==> !IsBoundary(word[i])
    ensures var t := TextUpdate(CompositionStart(CommitKeys(s, word, now)), Update(0, 0, again, false, now));
            && t.buffer == again
            && (t.remote == s.remote + again <==> |again| == |word| || (|again| > |word| && s.remote == []))
  {
    RecomposeErases(s, word, again, now);
    OvertypeIff(s.remote, word, again);
  }

  lemma HeadStands(remote: Text, before: Text, word: Text, again: Text)
    requires |again| < |word| && remote == Erase(before + word, |again|) + again
    ensures remote == before + word[..|word| - |again|] + again
  {
    var n := |word| - |again|;
    assert before + word == (before + word[..n]) + word[n..];
    EraseTail(before + word[..n], word[n..]);
  }

  /** Re-composed as something shorter, a word leaves its head standing in front of the new text. */
  lemma ShorterRecomposeKeepsHead(s: Ec, word: seq<Unit>, again: Text, now: int)
    requires s.buffer == [] && !s.composing && !s.suppressed && 0 < |again| < |word|
    requires forall i :: 0 <= i < |word| ==> !IsBoundary(word[i])
    ensures var t := TextUpdate(CompositionStart(CommitKeys(s, word, now)), Update(0, 0, again, false, now));
            t.remote == s.remote + word[..|word| - |again|] + again
  {
    RecomposeErases(s, word, again, now);
    var t := TextUpdate(CompositionStart(CommitKeys(s, word, now)), Update(0, 0, again, false, now));
    HeadStands(t.remote, s.remote, word, again);
  }

  lemma TeThenT(remote: Text, before: Text, word: Text, again: Text)
    requires before == [120] && word == [116, 101] && again == [116]
    requires remote == before + word[..|word| - |again|] + again
    ensures remote == [120, 116, 116]
  {
  }

  /** Behind "x" the word "te" is committed and re-composed as "t": the remote has "xtt". */
  lemma ShorterRecomposeDuplicates(s: Ec, word: seq<Unit>, again: Text, now: int)
    requires s.buffer == [] && !s.composing && !s.suppressed && s.remote == [120]
    requires word == [116, 101] && again == [116]
    ensures var t := TextUpdate(CompositionStart(CommitKeys(s, word, now)), Update(0, 0, again, false, now));
            t.remote == [120, 116, 116]
  {
    ShorterRecomposeKeepsHead(s, word, again, now);
    var t := TextUpdate(CompositionStart(CommitKeys(s, word, now)), Update(0, 0, again, false, now));
    TeThenT(t.remote, s.remote, word, again);
  }

  lemma CancelCommutes(s: Ec, u: Update, deferred: bool)
    ensures ApplyUpdate(s.(deferred := deferred), u) == ApplyUpdate(s, u).(deferred := deferred)
  {
    ReconcileCommutes(s, u, deferred);
    MirrorCommutes(Reconcile(s, u), u, deferred);
  }

  lemma ReconcileCommutes(s: Ec, u: Update, deferred: bool)
    ensures Reconcile(s.(deferred := deferred), u) == Reconcile(s, u).(deferred := deferred)
  {
  }

  lemma MirrorCommutes(s: Ec, u: Update, deferred: bool)
    ensures Mirror(s.(deferred := deferred), u) == Mirror(s, u).(deferred := deferred)
  {
  }

  // ------------------------------------------------------------- the code's handler

  class EditContextInput {
    const filter: A.AutoSpaceFilter
    const stripping: bool
    var ecText: Text
    var isComposing: bool
    var ecSuppressed: bool
    var ecCommittedWord: bool
    var ecComposeReconciled: bool
    var pendingBackspace: bool
    ghost var remote: Text

    ghost function View(): Ec
      reads this, filter
    {
      Ec(stripping, ecText, isComposing, ecSuppressed, ecCommittedWord, ecComposeReconciled, pendingBackspace,
        filter.View(), remote)
    }

    constructor (stripping: bool)
      ensures View() == Ec(stripping, [], false, false, false, false, false, A.Memory(None, 0), []) && fresh(filter)
    {
      this.stripping := stripping;
      filter := new A.AutoSpaceFilter();
      ecText, isComposing, ecSuppressed, ecCommittedWord, ecComposeReconciled, remote :=
        [], false, false, false, false, [];
      pendingBackspace := false;
    }

    method OnCompositionStart()
      modifies this`isComposing, this`ecComposeReconciled
      ensures View() == CompositionStart(old(View()))
    {
      isComposing := true;
      ecComposeReconciled := false;
    }

    method ReconcileWord(u: Update)
      modifies this`remote, this`ecCommittedWord, this`ecComposeReconciled
      ensures View() == Reconcile(old(View()), u)
    {
      var text := NewBuffer(ecText, u);
      if isComposing && !ecComposeReconciled && text != [] {
        ecComposeReconciled := true;
        if DeletedCount(ecText, u) == 0 && ecCommittedWord && u.text == text {
          remote := Erase(remote, |text|);
          ecCommittedWord := false;
        }
      }
    }

    /** Sends committed text and notes whether it ends inside a word. */
    method SendCommitted(text: Text, now: int)
      requires text != []
      modifies this`remote, this`ecCommittedWord, filter
      ensures var (memory, kept) := A.Filter(old(filter.View()), text, now, stripping);
              && filter.View() == memory && remote == old(remote) + kept
              && ecCommittedWord == if kept == [] then old(ecCommittedWord) else !IsBoundary(kept[|kept| - 1])
    {
      var out := filter.FilterText(text, now, stripping);
      remote := remote + out;
      for i := 0 to |out|
        invariant ecCommittedWord == if i == 0 then old(ecCommittedWord) else !IsBoundary(out[i - 1])
        invariant remote == old(remote) + out && filter.View() == A.Filter(old(filter.View()), text, now, stripping).0
      {
        ecCommittedWord := !IsBoundary(out[i]);
      }
    }

    method CancelDeferred(u: Update)
      modifies this`pendingBackspace
      ensures View() == old(View()).(deferred := old(pendingBackspace) && IsPhantom(isComposing, u))
    {
      var phantomDelete := !isComposing && u.text == [] && u.end <= u.start;
      if pendingBackspace && !phantomDelete {
        pendingBackspace := false;
      }
    }

    /** Outside a withheld composition: Backspaces for the range, then the text. */
    method MirrorUpdate(u: Update)
      modifies this`remote, this`ecText, this`ecCommittedWord, filter
      ensures View() == Mirror(old(View()), u)
    {
      var text := NewBuffer(ecText, u);
      remote := Erase(remote, DeletedCount(ecText, u));
      if isComposing {
        remote := remote + u.text;
        ecText := text;
        return;
      }
      if u.text != [] {
        SendCommitted(u.text, u.now);
      } else {
        assert remote + [] == remote;
      }
      ecText := [];
    }

    method OnTextUpdate(u: Update)
      modifies this, filter
      ensures View() == TextUpdate(old(View()), u)
    {
      CancelDeferred(u);
      CancelCommutes(old(View()), u, pendingBackspace);
      var text := NewBuffer(ecText, u);
      ReconcileWord(u);
      if isComposing && (ecSuppressed || u.commitOnly) {
        ecSuppressed := true;
        ecText := text;
        return;
      }
      MirrorUpdate(u);
    }

    /** Backspace, or a key the browser cannot name. */
    method OnDeleteKey(isBackspace: bool)
      modifies this`remote, this`pendingBackspace
      ensures View() == DeleteKey(old(View()), isBackspace)
    {
      if isBackspace && ecText == [] {
        remote := Erase(remote, 1);
        return;
      }
      pendingBackspace := true;
    }

    method OnTimer(sameField: bool)
      modifies this`remote, this`pendingBackspace
      ensures View() == TimerFires(old(View()), sameField)
    {
      if pendingBackspace {
        pendingBackspace := false;
        if sameField {
          remote := Erase(remote, 1);
        }
      }
    }

    method OnCompositionEnd(now: int)
      modifies this, filter
      ensures View() == CompositionEnd(old(View()), now)
    {
      assert remote + [] == remote;
      if ecSuppressed {
        ecSuppressed := false;
        if ecText != [] {
          var kept := filter.FilterText(ecText, now, stripping);
          remote := remote + kept;
        }
      }
      isComposing := false;
      ecCommittedWord := false;
      ecComposeReconciled := false;
      ecText := [];
    }
  }
}

/**
 The hidden-input value-diff path of kbd/ime-input.js (Android, and iOS mirror
 mode): each input event compares the field's value with what was last sent and
 sends Backspaces and text.

 The remote field is edited at its end. How many Backspaces the code sends for a
 deleted text, and what that many Backspaces delete, are a `Keyboard`, of which
 little is assumed. `base` is the settled remote text in front of what the local
 buffer mirrors.
 */
module ValueDiff {
  import opened Prelude
  import opened Keystrokes
  import A = AutoSpace

  /** `backspaceCountFor`, and the remote's reading of that many Backspaces at the end of its text. */
  datatype Keyboard = Keyboard(count: Text -> nat, press: (Text, nat) -> Text)

  /** One Backspace always deletes something, if there is anything, and none deletes nothing. */
  ghost predicate Sane(k: Keyboard) {
    && (forall t: Text :: k.press(t, 0) == t)
    && (forall t: Text :: t != [] ==> |k.press(t, 1)| < |t|)
    && k.press([], 1) == []
  }

  /** The Backspaces sent for `tail` delete exactly that, behind `kept`. */
  predicate ErasesExactly(k: Keyboard, kept: Text, tail: Text) {
    tail == [] || k.press(kept + tail, k.count(tail)) == kept
  }

  /**
   `proxy` is the hidden field's own value, `lastSent` what it is taken to have had;
   `stripping` says the auto-space filter applies: Android, and no sensitive field.
   */
  datatype Ime = Ime(
    mirror: bool,
    stripping: bool,
    proxy: Text,
    lastSent: Text,
    composing: bool,
    deferred: bool,
    memory: A.Memory,
    remote: Text,
    base: Text)

  datatype Event =
    | Input(deletes: bool, value: Text, now: int)
    | Composing(on: bool)
    | CompositionEnds(data: Text)
    | DeleteOnEmpty
    | AmbiguousKey
    | CancelDeferred
    | TimerFires(sameField: bool)
    | LeaveBuffer(remoteAfter: Text)
    | AdoptValue(reported: Text)

  function Type(s: Ime, t: Text): Ime {
    s.(remote := s.remote + t)
  }

  /** Backspaces for a deleted text; an empty one sends none. */
  function EraseSent(k: Keyboard, s: Ime, tail: Text): Ime {
    if tail == [] then s else s.(remote := k.press(s.remote, k.count(tail)))
  }

  /** One Backspace by itself; what was settled shrinks when nothing is mirrored. */
  function Backspace(k: Keyboard, s: Ime): Ime {
    var t := s.(remote := k.press(s.remote, 1));
    if s.lastSent == [] then t.(base := t.remote) else t
  }

  function Filtered(s: Ime, t: Text, now: int): (A.Memory, Text) {
    A.Filter(s.memory, t, now, s.stripping && !s.mirror)
  }

  /** `filterAutoSpace` then `sendText`. */
  function TypeFiltered(s: Ime, t: Text, now: int): Ime {
    var (memory, kept) := Filtered(s, t, now);
    Type(s, kept).(memory := memory)
  }

  function Sent(s: Ime, value: Text): Ime {
    s.(lastSent := value)
  }

  /** The proxy is emptied and what is on the remote settles. */
  function Settle(s: Ime): Ime {
    s.(proxy := [], lastSent := [], base := s.remote)
  }

  function DiffAndSend(k: Keyboard, s: Ime, oldText: Text, newText: Text, now: int): Ime {
    var p := Cut(oldText, newText);
    var erased := EraseSent(k, s, oldText[p..]);
    if newText[p..] == [] then erased
    else if s.composing then Type(erased, newText[p..])
    else TypeFiltered(erased, newText[p..], now)
  }

  /** Delete everything sent for the word and type the new word. */
  function Retype(k: Keyboard, s: Ime, value: Text, now: int): Ime {
    var t := TypeFiltered(EraseSent(k, s, s.lastSent), value, now);
    if Filtered(s, value, now).1 != value then Settle(t) else Sent(t, value)
  }

  function Shrink(k: Keyboard, s: Ime, value: Text): Ime {
    if value <= s.lastSent then Sent(EraseSent(k, s, s.lastSent[|value|..]), value)
    else Sent(Type(EraseSent(k, s, s.lastSent), value), value)
  }

  function Append(s: Ime, value: Text, now: int): Ime {
    var added := value[Min(|s.lastSent|, |value|)..];
    var t := TypeFiltered(s, added, now);
    if Filtered(s, added, now).1 != added && !s.composing then Settle(t) else Sent(t, value)
  }

  /** A delete event that removed nothing locally is one Backspace for the remote. */
  function DeleteNothing(k: Keyboard, s: Ime, value: Text): Ime {
    Sent(Backspace(k, s), value)
  }

  function DiffStep(k: Keyboard, s: Ime, deletes: bool, value: Text, now: int): Ime {
    if s.mirror then Sent(if value != s.lastSent then DiffAndSend(k, s, s.lastSent, value, now) else s, value)
    else if deletes && |value| >= |s.lastSent| then DeleteNothing(k, s, value)
    else if |value| < |s.lastSent| then Shrink(k, s, value)
    else if |value| > |s.lastSent| && s.lastSent <= value then Append(s, value, now)
    else if value == s.lastSent then s
    else if s.composing then Sent(DiffAndSend(k, s, s.lastSent, value, now), value)
    else Retype(k, s, value, now)
  }

  /** The field has changed to `value`, and a deferred Backspace was no delete after all. */
  function InputStep(k: Keyboard, s: Ime, deletes: bool, value: Text, now: int): Ime {
    DiffStep(k, s.(proxy := value, deferred := false), deletes, value, now)
  }

  /** In mirror mode the composed text is sent once more and the field emptied; Android only notes the end. */
  function EndComposition(s: Ime, data: Text): Ime {
    var t := s.(composing := false);
    if s.mirror then Type(t, data).(proxy := []) else t
  }

  function Step(k: Keyboard, s: Ime, e: Event): Ime {
    match e
    case Input(deletes, value, now) => InputStep(k, s, deletes, value, now)
    case Composing(on) => s.(composing := on)
    case CompositionEnds(data) => EndComposition(s, data)
    case DeleteOnEmpty => if s.proxy == [] then Backspace(k, s) else s
    case AmbiguousKey => s.(deferred := true)
    case CancelDeferred => s.(deferred := false)
    case TimerFires(sameField) =>
      var t := s.(deferred := false);
      if s.deferred && sameField then Backspace(k, t) else t
    case LeaveBuffer(remoteAfter) => Settle(s.(remote := remoteAfter))
    case AdoptValue(reported) => s.(proxy := reported, lastSent := reported, base := [])
  }

  function Run(k: Keyboard, s: Ime, events: seq<Event>): Ime
    decreases events
  {
    if events == [] then s else Run(k, Step(k, s, events[0]), events[1..])
  }

  /** The remote text is the settled base followed by what the buffer believes it sent. */
  predicate InStep(s: Ime) {
    s.remote == s.base + s.lastSent
  }

  // ------------------------------------------------------- which events are faithful

  /** The Backspaces of a diff delete the old tail exactly. */
  predicate DiffErases(k: Keyboard, s: Ime, value: Text) {
    var p := Cut(s.lastSent, value);
    ErasesExactly(k, s.base + s.lastSent[..p], s.lastSent[p..])
  }

  predicate FaithfulInput(k: Keyboard, s: Ime, deletes: bool, value: Text, now: int) {
    if s.mirror then DiffErases(k, s, value)
    else if deletes && |value| >= |s.lastSent| then s.lastSent == [] && value == []
    else if |value| < |s.lastSent| then
      if value <= s.lastSent then ErasesExactly(k, s.base + value, s.lastSent[|value|..])
      else ErasesExactly(k, s.base, s.lastSent)
    else if |value| > |s.lastSent| && s.lastSent <= value then
      !(s.composing && s.stripping && A.AutoSpaceShape(s.memory, value[|s.lastSent|..], now))
    else if value == s.lastSent then true
    else if s.composing then DiffErases(k, s, value)
    else (s.stripping && A.AutoSpaceShape(s.memory, value, now)) || ErasesExactly(k, s.base, s.lastSent)
  }

  /**
   The events the code handles faithfully: every run of Backspaces deletes exactly
   what it was counted for; a delete that removes nothing, and a Backspace by itself,
   come only when nothing is mirrored; no space is stripped in mid-composition; no
   composition with data ends in mirror mode; and an adopted value is the remote's.
   */
  predicate Faithful(k: Keyboard, s: Ime, e: Event) {
    match e
    case Input(deletes, value, now) => FaithfulInput(k, s, deletes, value, now)
    case CompositionEnds(data) => !s.mirror || data == []
    case DeleteOnEmpty => s.proxy != [] || s.lastSent == []
    case TimerFires(sameField) => !s.deferred || !sameField || s.lastSent == []
    case AdoptValue(reported) => reported == s.remote
    case _ => true
  }

  lemma TypeKeeps(base: Text, a: Text, b: Text)
    ensures (base + a) + b == base + (a + b)
  {
  }

  lemma SameTail(a: Text, b: Text, tail: Text)
    ensures a + tail == b + tail <==> a == b
  {
    if a + tail == b + tail {
      assert |a| == |b|;
      assert a == (a + tail)[..|a|] == (b + tail)[..|b|] == b;
    }
  }

  /** A run of Backspaces for the end of the mirrored text leaves `kept` exactly when it is exact. */
  lemma EraseSentIff(k: Keyboard, s: Ime, kept: Text, tail: Text)
    requires s.remote == kept + tail
    ensures EraseSent(k, s, tail).remote == kept <==> ErasesExactly(k, kept, tail)
  {
    if tail == [] {
      assert kept + tail == kept;
    }
  }

  /** Composing or mirroring, nothing is stripped from the new tail. */
  lemma DiffSendsTail(k: Keyboard, s: Ime, value: Text, now: int)
    requires s.composing || s.mirror
    ensures var p := Cut(s.lastSent, value);
            var t := DiffAndSend(k, s, s.lastSent, value, now);
            t.remote == EraseSent(k, s, s.lastSent[p..]).remote + value[p..] && t.base == s.base
  {
    var p := Cut(s.lastSent, value);
    var erased := EraseSent(k, s, s.lastSent[p..]);
    assert erased.remote + [] == erased.remote;
    assert erased.memory == s.memory && erased.mirror == s.mirror;
  }

  lemma DiffInStepIff(k: Keyboard, s: Ime, value: Text, now: int)
    requires InStep(s) && (s.composing || s.mirror)
    ensures InStep(Sent(DiffAndSend(k, s, s.lastSent, value, now), value)) <==> DiffErases(k, s, value)
  {
    var p := Cut(s.lastSent, value);
    DiffSendsTail(k, s, value, now);
    TailInStepIff(k, s, p, value);
  }

  lemma TailInStepIff(k: Keyboard, s: Ime, p: nat, value: Text)
    requires InStep(s) && p <= |s.lastSent| && p <= |value| && value[..p] == s.lastSent[..p]
    ensures EraseSent(k, s, s.lastSent[p..]).remote + value[p..] == s.base + value <==>
              ErasesExactly(k, s.base + s.lastSent[..p], s.lastSent[p..])
  {
    var kept, tail := s.base + s.lastSent[..p], s.lastSent[p..];
    assert s.lastSent == s.lastSent[..p] + tail && value == value[..p] + value[p..];
    TypeKeeps(s.base, s.lastSent[..p], tail);
    EraseSentIff(k, s, kept, tail);
    TypeKeeps(s.base, value[..p], value[p..]);
    SameTail(EraseSent(k, s, tail).remote, kept, value[p..]);
  }

  lemma ShrinkInStepIff(k: Keyboard, s: Ime, value: Text)
    requires InStep(s) && |value| < |s.lastSent|
    ensures InStep(Shrink(k, s, value)) <==>
              if value <= s.lastSent then ErasesExactly(k, s.base + value, s.lastSent[|value|..])
              else ErasesExactly(k, s.base, s.lastSent)
  {
    if value <= s.lastSent {
      assert s.lastSent == value + s.lastSent[|value|..];
      TypeKeeps(s.base, value, s.lastSent[|value|..]);
      EraseSentIff(k, s, s.base + value, s.lastSent[|value|..]);
    } else {
      EraseSentIff(k, s, s.base, s.lastSent);
      SameTail(EraseSent(k, s, s.lastSent).remote, s.base, value);
    }
  }

  lemma RetypeInStepIff(k: Keyboard, s: Ime, value: Text, now: int)
    requires InStep(s) && !s.mirror
    ensures InStep(Retype(k, s, value, now)) <==>
              (s.stripping && A.AutoSpaceShape(s.memory, value, now)) || ErasesExactly(k, s.base, s.lastSent)
  {
    A.FilterStripsOneSpaceIff(s.memory, value, now, s.stripping);
    EraseSentIff(k, s, s.base, s.lastSent);
    SameTail(EraseSent(k, s, s.lastSent).remote, s.base, value);
    var t := TypeFiltered(EraseSent(k, s, s.lastSent), value, now);
    assert t.remote + [] == t.remote;
  }

  lemma AppendInStepIff(s: Ime, value: Text, now: int)
    requires InStep(s) && !s.mirror && |value| > |s.lastSent| && s.lastSent <= value
    ensures InStep(Append(s, value, now)) <==>
              !(s.composing && s.stripping && A.AutoSpaceShape(s.memory, value[|s.lastSent|..], now))
  {
    var added := value[|s.lastSent|..];
    A.FilterStripsOneSpaceIff(s.memory, added, now, s.stripping);
    assert value == s.lastSent + added;
    TypeKeeps(s.base, s.lastSent, added);
    var t := TypeFiltered(s, added, now);
    assert t.remote + [] == t.remote;
    assert |t.remote| == |s.base| + |s.lastSent| + |Filtered(s, added, now).1|;
  }

  /** One Backspace by itself is in step exactly when nothing is mirrored. */
  lemma BackspaceInStepIff(k: Keyboard, s: Ime, value: Text)
    requires Sane(k) && InStep(s) && |value| >= |s.lastSent|
    ensures InStep(Sent(Backspace(k, s), value)) <==> s.lastSent == [] && value == []
  {
    var t := Sent(Backspace(k, s), value);
    assert s.remote != [] ==> |k.press(s.remote, 1)| < |s.remote|;
    if s.lastSent == [] {
      assert t.base + [] == t.base;
      assert InStep(t) ==> |t.remote| == |t.base| + |value|;
    } else {
      assert InStep(t) ==> |t.remote| == |s.base| + |value|;
    }
  }

  lemma DiffStepInStepIff(k: Keyboard, s: Ime, deletes: bool, value: Text, now: int)
    requires Sane(k) && InStep(s)
    ensures InStep(DiffStep(k, s, deletes, value, now)) <==> FaithfulInput(k, s, deletes, value, now)
  {
    if s.mirror {
      if value != s.lastSent {
        DiffInStepIff(k, s, value, now);
      } else {
        NothingToErase(k, s, value);
      }
    } else if deletes && |value| >= |s.lastSent| {
      BackspaceInStepIff(k, s, value);
    } else if |value| < |s.lastSent| {
      ShrinkInStepIff(k, s, value);
    } else if |value| > |s.lastSent| && s.lastSent <= value {
      AppendInStepIff(s, value, now);
    } else if value != s.lastSent {
      if s.composing { DiffInStepIff(k, s, value, now); } else { RetypeInStepIff(k, s, value, now); }
    }
  }

  lemma NothingToErase(k: Keyboard, s: Ime, value: Text)
    requires value == s.lastSent
    ensures DiffErases(k, s, value)
  {
    AgreementIsUnique(value, value, |value|);
  }

  /** One event keeps the remote in step with the buffer if and only if it is one of the faithful ones. */
  lemma StepInStepIff(k: Keyboard, s: Ime, e: Event)
    requires Sane(k) && InStep(s)
    ensures InStep(Step(k, s, e)) <==> Faithful(k, s, e)
  {
    match e
    case Input(deletes, value, now) =>
      DiffStepInStepIff(k, s.(proxy := value, deferred := false), deletes, value, now);
    case CompositionEnds(data) =>
      assert s.mirror ==> |EndComposition(s, data).remote| == |s.base| + |s.lastSent| + |data|;
      assert s.remote + [] == s.remote;
    case DeleteOnEmpty => BackspaceInStepIff(k, s, s.lastSent);
    case TimerFires(sameField) => BackspaceInStepIff(k, s.(deferred := false), s.lastSent);
    case LeaveBuffer(remoteAfter) =>
      assert remoteAfter + [] == remoteAfter;
    case AdoptValue(reported) =>
      assert [] + reported == reported;
    case _ =>
  }

  ghost predicate FaithfulRun(k: Keyboard, s: Ime, events: seq<Event>)
    decreases events
  {
    events != [] ==> Faithful(k, s, events[0]) && FaithfulRun(k, Step(k, s, events[0]), events[1..])
  }

  /** Through any sequence of faithful events the remote stays the base followed by `lastSentValue`. */
  lemma {:induction false} RemoteFollowsBuffer(k: Keyboard, s: Ime, events: seq<Event>)
    requires Sane(k) && InStep(s) && FaithfulRun(k, s, events)
    ensures InStep(Run(k, s, events))
    decreases events
  {
    if events != [] {
      StepInStepIff(k, s, events[0]);
      RemoteFollowsBuffer(k, Step(k, s, events[0]), events[1..]);
    }
  }

  // ---------------------------------------------------------- what the remote then shows

  /** A delete event that shrank nothing: one Backspace and no text. */
  predicate DeletesNothing(s: Ime, deletes: bool, value: Text) {
    !s.mirror && deletes && |value| >= |s.lastSent|
  }

  /** The field grew at its end. */
  predicate Grows(s: Ime, deletes: bool, value: Text) {
    !s.mirror && !DeletesNothing(s, deletes, value) && |value| > |s.lastSent| && s.lastSent <= value
  }

  /** The field was replaced by something at least as long, outside a composition. */
  predicate Replaces(s: Ime, deletes: bool, value: Text) {
    && !s.mirror && !s.composing && !DeletesNothing(s, deletes, value) && |value| >= |s.lastSent|
    && value != s.lastSent && !Grows(s, deletes, value)
  }

  /** An auto-space is taken out of what the input adds, or of what it retypes. */
  predicate StripsGrowth(s: Ime, deletes: bool, value: Text, now: int) {
    && Grows(s, deletes, value) && !s.composing && s.stripping
    && A.AutoSpaceShape(s.memory, value[|s.lastSent|..], now)
  }

  predicate StripsReplacement(s: Ime, deletes: bool, value: Text, now: int) {
    Replaces(s, deletes, value) && s.stripping && A.AutoSpaceShape(s.memory, value, now)
  }

  /** An input that only brings text: no bare delete, and nothing stripped. */
  predicate BringsText(s: Ime, deletes: bool, value: Text, now: int) {
    && !DeletesNothing(s, deletes, value)
    && !StripsGrowth(s, deletes, value, now) && !StripsReplacement(s, deletes, value, now)
  }

  /** The remote shows the text in front of the buffer, where it was, and then exactly the field's value. */
  predicate Shows(s: Ime, base: Text, value: Text) {
    s.base == base && s.lastSent == value && s.remote == base + value
  }

  /** `kept` is `text` without one space at an end. */
  predicate WithoutOneSpace(kept: Text, text: Text) {
    text == [A.SPACE] + kept || text == kept + [A.SPACE]
  }

  lemma DiffShows(k: Keyboard, s: Ime, value: Text, now: int)
    requires InStep(s) && (s.composing || s.mirror) && DiffErases(k, s, value)
    ensures Shows(Sent(DiffAndSend(k, s, s.lastSent, value, now), value), s.base, value)
  {
    DiffInStepIff(k, s, value, now);
    DiffSendsTail(k, s, value, now);
  }

  lemma ShrinkShows(k: Keyboard, s: Ime, value: Text)
    requires InStep(s) && |value| < |s.lastSent|
    requires if value <= s.lastSent then ErasesExactly(k, s.base + value, s.lastSent[|value|..])
             else ErasesExactly(k, s.base, s.lastSent)
    ensures Shows(Shrink(k, s, value), s.base, value)
  {
    ShrinkInStepIff(k, s, value);
  }

  lemma AppendShows(s: Ime, value: Text, now: int)
    requires InStep(s) && !s.mirror && |value| > |s.lastSent| && s.lastSent <= value
    requires !(s.stripping && A.AutoSpaceShape(s.memory, value[|s.lastSent|..], now))
    ensures Shows(Append(s, value, now), s.base, value)
  {
    AppendInStepIff(s, value, now);
    A.FilterStripsOneSpaceIff(s.memory, value[|s.lastSent|..], now, s.stripping);
  }

  lemma RetypeShows(k: Keyboard, s: Ime, value: Text, now: int)
    requires InStep(s) && !s.mirror && ErasesExactly(k, s.base, s.lastSent)
    requires !(s.stripping && A.AutoSpaceShape(s.memory, value, now))
    ensures Shows(Retype(k, s, value, now), s.base, value)
  {
    RetypeInStepIff(k, s, value, now);
    A.FilterStripsOneSpaceIff(s.memory, value, now, s.stripping);
  }

  /** Nothing new has nothing to send, whichever branch takes it. */
  lemma SameValueShows(k: Keyboard, s: Ime, deletes: bool, value: Text, now: int)
    requires InStep(s) && value == s.lastSent && !DeletesNothing(s, deletes, value)
    ensures Shows(DiffStep(k, s, deletes, value, now), s.base, value)
  {
  }

  lemma DiffStepShows(k: Keyboard, s: Ime, deletes: bool, value: Text, now: int)
    requires InStep(s) && FaithfulInput(k, s, deletes, value, now) && BringsText(s, deletes, value, now)
    ensures Shows(DiffStep(k, s, deletes, value, now), s.base, value)
  {
    if value == s.lastSent {
      SameValueShows(k, s, deletes, value, now);
    } else if s.mirror {
      DiffShows(k, s, value, now);
    } else if |value| < |s.lastSent| {
      ShrinkShows(k, s, value);
    } else if s.lastSent <= value {
      AppendShows(s, value, now);
    } else if s.composing {
      DiffShows(k, s, value, now);
    } else {
      RetypeShows(k, s, value, now);
    }
  }

  /** A faithful input that brings text shows exactly that text, and leaves alone what stands in front of it. */
  lemma InputShowsValue(k: Keyboard, s: Ime, deletes: bool, value: Text, now: int)
    requires InStep(s) && FaithfulInput(k, s, deletes, value, now) && BringsText(s, deletes, value, now)
    ensures Shows(Step(k, s, Input(deletes, value, now)), s.base, value)
  {
    DiffStepShows(k, s.(proxy := value, deferred := false), deletes, value, now);
  }

  /** The buffer settles on what the remote shows. */
  predicate Settled(s: Ime, remote: Text) {
    s.remote == s.base == remote && s.lastSent == [] && s.proxy == []
  }

  /** A stripped addition follows what was there, and a stripped replacement what was in front, without its space. */
  lemma StrippedInputSettles(k: Keyboard, s: Ime, deletes: bool, value: Text, now: int) returns (kept: Text)
    requires InStep(s) && !BringsText(s, deletes, value, now) && !DeletesNothing(s, deletes, value)
    ensures var t := Step(k, s, Input(deletes, value, now));
            if Grows(s, deletes, value) then
              WithoutOneSpace(kept, value[|s.lastSent|..]) && Settled(t, s.remote + kept)
            else
              && WithoutOneSpace(kept, value)
              && (ErasesExactly(k, s.base, s.lastSent) ==> Settled(t, s.base + kept))
  {
    var u := s.(proxy := value, deferred := false);
    if Grows(s, deletes, value) {
      var added := value[|s.lastSent|..];
      A.FilterStripsOneSpaceIff(s.memory, added, now, s.stripping);
      kept := Filtered(u, added, now).1;
    } else {
      A.FilterStripsOneSpaceIff(s.memory, value, now, s.stripping);
      EraseSentIff(k, u, s.base, s.lastSent);
      kept := Filtered(u, value, now).1;
    }
  }

  /** The filter sees what an input adds or retypes, and remembers it. */
  lemma InputRemembers(k: Keyboard, s: Ime, deletes: bool, value: Text, now: int)
    requires !s.mirror
    ensures var t := Step(k, s, Input(deletes, value, now));
            && (Grows(s, deletes, value) ==> t.memory == A.Filter(s.memory, value[|s.lastSent|..], now, s.stripping).0)
            && (Replaces(s, deletes, value) ==> t.memory == A.Filter(s.memory, value, now, s.stripping).0)
  {
    var u := s.(proxy := value, deferred := false);
    if Grows(s, deletes, value) {
      assert Step(k, s, Input(deletes, value, now)) == Append(u, value, now);
    } else if Replaces(s, deletes, value) {
      assert Step(k, s, Input(deletes, value, now)) == Retype(k, u, value, now);
    }
  }

  /** Events between which the buffer keeps its place: text arrives, and compositions come and go. */
  predicate Typing(k: Keyboard, s: Ime, e: Event) {
    match e
    case Input(deletes, value, now) => FaithfulInput(k, s, deletes, value, now) && BringsText(s, deletes, value, now)
    case Composing(_) => true
    case CompositionEnds(data) => !s.mirror || data == []
    case AmbiguousKey => true
    case CancelDeferred => true
    case _ => false
  }

  ghost predicate TypingRun(k: Keyboard, s: Ime, events: seq<Event>)
    decreases events
  {
    events != [] ==> Typing(k, s, events[0]) && TypingRun(k, Step(k, s, events[0]), events[1..])
  }

  function LastValue(value: Text, events: seq<Event>): Text
    decreases events
  {
    if events == [] then value
    else LastValue(if events[0].Input? then events[0].value else value, events[1..])
  }

  lemma TypingShows(k: Keyboard, s: Ime, e: Event)
    requires InStep(s) && Typing(k, s, e)
    ensures Shows(Step(k, s, e), s.base, if e.Input? then e.value else s.lastSent)
  {
    if e.Input? {
      InputShowsValue(k, s, e.deletes, e.value, e.now);
    } else {
      assert s.remote + [] == s.remote;
    }
  }

  /**
   Over any run of such events the text in front never moves and the remote is that text
   followed by the last value the field had.
   */
  lemma {:induction false} RemoteShowsLastValue(k: Keyboard, s: Ime, events: seq<Event>)
    requires InStep(s) && TypingRun(k, s, events)
    ensures Shows(Run(k, s, events), s.base, LastValue(s.lastSent, events))
    decreases events
  {
    if events != [] {
      TypingShows(k, s, events[0]);
      RemoteShowsLastValue(k, Step(k, s, events[0]), events[1..]);
    }
  }

  /** The one Backspace of an empty field, of a bare delete or of a timer, and its absence otherwise. */
  lemma BackspaceAnswers(k: Keyboard, s: Ime, deletes: bool, value: Text, now: int, sameField: bool)
    ensures var t := Step(k, s, DeleteOnEmpty);
            && t.remote == (if s.proxy == [] then k.press(s.remote, 1) else s.remote)
            && t.base == (if s.proxy == [] && s.lastSent == [] then t.remote else s.base)
    ensures Step(k, s, TimerFires(sameField)).remote ==
            if s.deferred && sameField then k.press(s.remote, 1) else s.remote
    ensures !Step(k, s, TimerFires(sameField)).deferred
    ensures Settled(Step(k, s, LeaveBuffer(value)), value)
    ensures DeletesNothing(s, deletes, value) ==>
            Step(k, s, Input(deletes, value, now)).remote == k.press(s.remote, 1)
  {
  }

  predicate SameFlags(s: Ime, t: Ime) {
    t.deferred == s.deferred && t.composing == s.composing
  }

  lemma DiffKeepsProxy(k: Keyboard, s: Ime, oldText: Text, newText: Text, now: int)
    ensures var t := DiffAndSend(k, s, oldText, newText, now); t.proxy == s.proxy && SameFlags(s, t)
  {
  }

  lemma ShrinkMatches(k: Keyboard, s: Ime, value: Text)
    requires s.proxy == value
    ensures var t := Shrink(k, s, value);
            t.proxy == t.lastSent && SameFlags(s, t)
  {
  }

  lemma AppendMatches(s: Ime, value: Text, now: int)
    requires s.proxy == value
    ensures var t := Append(s, value, now); t.proxy == t.lastSent && SameFlags(s, t)
  {
  }

  lemma RetypeMatches(k: Keyboard, s: Ime, value: Text, now: int)
    requires s.proxy == value
    ensures var t := Retype(k, s, value, now); t.proxy == t.lastSent && SameFlags(s, t)
  {
  }

  /** After an input the buffer believes the field holds what it does hold. */
  lemma DiffStepMatches(k: Keyboard, s: Ime, deletes: bool, value: Text, now: int)
    requires s.proxy == value
    ensures var t := DiffStep(k, s, deletes, value, now); t.proxy == t.lastSent && SameFlags(s, t)
  {
    if s.mirror {
      DiffKeepsProxy(k, s, s.lastSent, value, now);
    } else if deletes && |value| >= |s.lastSent| {
      assert DiffStep(k, s, deletes, value, now) == DeleteNothing(k, s, value);
    } else if |value| < |s.lastSent| {
      ShrinkMatches(k, s, value);
    } else if |value| > |s.lastSent| && s.lastSent <= value {
      AppendMatches(s, value, now);
    } else if value != s.lastSent {
      DiffKeepsProxy(k, s, s.lastSent, value, now);
      RetypeMatches(k, s, value, now);
    }
  }

  /**
   The buffer's idea of the field stays right except when a composition ends in mirror mode
   with text mirrored; and a deferred Backspace waits until an input, a beforeinput or its timer.
   */
  lemma ProxyMatchesIff(k: Keyboard, s: Ime, e: Event)
    requires s.proxy == s.lastSent
    ensures var t := Step(k, s, e);
            t.proxy == t.lastSent <==> !(e.CompositionEnds? && s.mirror && s.lastSent != [])
    ensures Step(k, s, e).deferred <==>
              e.AmbiguousKey? || (s.deferred && !e.Input? && !e.CancelDeferred? && !e.TimerFires?)
    ensures Step(k, s, e).composing == if e.Composing? then e.on else s.composing && !e.CompositionEnds?
  {
    if e.Input? {
      DiffStepMatches(k, s.(proxy := e.value, deferred := false), e.deletes, e.value, e.now);
    }
  }

  // ------------------------------------------------------------------- two keyboards

  /** One Backspace per code unit, on both sides. */
  const UNITS: Keyboard := Keyboard((t: Text) => |t|, (t: Text, n: nat) => Erase(t, n))

  lemma UnitsAreExact(kept: Text, tail: Text)
    ensures Sane(UNITS) && ErasesExactly(UNITS, kept, tail)
  {
    EraseTail(kept, tail);
    forall t: Text ensures UNITS.press(t, 0) == t {
      assert Erase(t, 0) == t;
    }
  }

  /**
   The remote takes `PressesNeeded` Backspaces for these clusters, and each one more
   deletes from what is in front of them.
   */
  ghost predicate TakesClusters(k: Keyboard, kept: Text, clusters: seq<Text>) {
    && k.press(kept + Join(clusters), PressesNeeded(clusters)) == kept
    && forall n: nat :: n > 0 ==>
         && k.press(kept + Join(clusters), PressesNeeded(clusters) + n) == k.press(kept, n)
         && (if kept == [] then k.press(kept, n) == [] else |k.press(kept, n)| < |kept|)
  }

  /**
   With the code's cluster count the Backspaces are exact if and only if the count is
   right for every cluster, or nothing stands in front that could be deleted too much.
   */
  lemma ClusterCountExactIff(k: Keyboard, kept: Text, clusters: seq<Text>)
    requires k.count(Join(clusters)) == CountAll(clusters) && Join(clusters) != []
    requires TakesClusters(k, kept, clusters)
    ensures ErasesExactly(k, kept, Join(clusters)) <==> !AstralOutsideEmoji(clusters) || kept == []
  {
    CountIsRightIff(clusters);
    var extra := CountAll(clusters) - PressesNeeded(clusters);
    if extra > 0 {
      assert k.press(kept + Join(clusters), PressesNeeded(clusters) + extra) == k.press(kept, extra);
    }
  }

  // ------------------------------------------------------------------ failing inputs

  /** A composed character: U+6C34. */
  const WATER: Text := [0x6c34]

  function Empty(mirror: bool): Ime {
    Ime(mirror, !mirror, [], [], false, false, A.Memory(None, 0), [], [])
  }

  /** Mirror mode: the composed text has been sent as it was typed and is sent again when the composition ends. */
  lemma MirrorCompositionDoubles()
    ensures var composed := Step(UNITS, Step(UNITS, Empty(true), Composing(true)), Input(false, WATER, 0));
            var ended := Step(UNITS, composed, CompositionEnds(WATER));
            && InStep(composed) && composed.remote == composed.lastSent == WATER
            && ended.remote == WATER + WATER && ended.lastSent == WATER && ended.proxy == [] && !InStep(ended)
  {
    var started := Step(UNITS, Empty(true), Composing(true));
    assert Cut([], WATER) == 0;
    assert WATER[0..] == WATER && [] + WATER == WATER;
    assert Step(UNITS, started, Input(false, WATER, 0)).remote == WATER;
  }

  /** Android: a delete event that shrank nothing, and a timer's Backspace, on a mirrored "a". */
  lemma DeletesOnMirroredText()
    ensures var s := Empty(false).(proxy := [97], lastSent := [97], remote := [97]);
            && InStep(s) && !InStep(Step(UNITS, s, Input(true, [97], 0)))
            && !InStep(Step(UNITS, s.(deferred := true), TimerFires(true)))
  {
  }

  /** Android: an auto-space stripped while composing. */
  lemma StrippedWhileComposing()
    ensures var s := Empty(false).(composing := true, proxy := [97], lastSent := [97], remote := [97]);
            && InStep(s) && Step(UNITS, s, Input(false, [97, 46, 32], 0)).remote == [97, 46]
            && !InStep(Step(UNITS, s, Input(false, [97, 46, 32], 0)))
  {
    var s := Empty(false).(composing := true, proxy := [97], lastSent := [97], remote := [97]);
    var added: Text := [97, 46, 32][1..];
    assert added == [46, 32];
    assert A.PunctuationSpacePair(added);
    assert A.Strip(s.memory, added, 0) == [46];
  }

  // ------------------------------------------------------------- the code's handlers

  class ProxyInput {
    const keyboard: Keyboard
    const mirror: bool
    const stripping: bool
    const filter: A.AutoSpaceFilter
    var proxyValue: Text
    var lastSentValue: Text
    var isComposing: bool
    var pendingBackspace: bool
    ghost var remote: Text
    ghost var base: Text

    ghost function View(): Ime
      reads this, filter
    {
      Ime(mirror, stripping, proxyValue, lastSentValue, isComposing, pendingBackspace, filter.View(), remote, base)
    }

    constructor (keyboard: Keyboard, mirror: bool, stripping: bool)
      ensures View() == Ime(mirror, stripping, [], [], false, false, A.Memory(None, 0), [], []) && fresh(filter)
      ensures this.keyboard == keyboard
    {
      this.keyboard := keyboard;
      this.mirror := mirror;
      this.stripping := stripping;
      filter := new A.AutoSpaceFilter();
      proxyValue, lastSentValue, isComposing, pendingBackspace := [], [], false, false;
      remote, base := [], [];
    }

    ghost method SendText(t: Text)
      modifies this`remote
      ensures View() == Type(old(View()), t)
    {
      remote := remote + t;
    }

    /** Backspaces as counted for a deleted text. */
    method SendBackspacesFor(tail: Text)
      modifies this`remote
      ensures View() == EraseSent(keyboard, old(View()), tail)
    {
      if tail != [] {
        var n := keyboard.count(tail);
        remote := keyboard.press(remote, n);
      }
    }

    method SendBackspace()
      modifies this`remote, this`base
      ensures View() == Backspace(keyboard, old(View()))
    {
      remote := keyboard.press(remote, 1);
      if lastSentValue == [] {
        base := remote;
      }
    }

    /** Sends what the filter leaves and reports whether it left everything. */
    method SendFiltered(t: Text, now: int) returns (whole: bool)
      modifies this`remote, filter
      ensures View() == TypeFiltered(old(View()), t, now)
      ensures whole <==> Filtered(old(View()), t, now).1 == t
    {
      var kept := filter.FilterText(t, now, stripping && !mirror);
      SendText(kept);
      whole := kept == t;
    }

    method SendDiff(oldV: Text, newV: Text, now: int)
      modifies this`remote, filter
      ensures View() == DiffAndSend(keyboard, old(View()), oldV, newV, now)
    {
      var p := FindCut(oldV, newV);
      SendBackspacesFor(oldV[p..]);
      if newV[p..] != [] {
        if isComposing {
          SendText(newV[p..]);
        } else {
          var whole := SendFiltered(newV[p..], now);
        }
      }
    }

    method ClearProxy()
      modifies this`proxyValue, this`lastSentValue, this`base
      ensures View() == Settle(old(View()))
    {
      proxyValue := [];
      lastSentValue := [];
      base := remote;
    }

    /** The two branches that shrink. */
    method SendShrink(currentValue: Text)
      requires |currentValue| < |lastSentValue|
      modifies this`remote, this`lastSentValue
      ensures View() == Shrink(keyboard, old(View()), currentValue)
    {
      var cleanSuffix := currentValue <= lastSentValue;
      SendBackspacesFor(if cleanSuffix then lastSentValue[|currentValue|..] else lastSentValue);
      if !cleanSuffix {
        SendText(currentValue);
      }
      lastSentValue := currentValue;
    }

    /** Append, autocorrect and composition churn. */
    method SendChange(currentValue: Text, now: int)
      requires !mirror && |currentValue| >= |lastSentValue|
      modifies this`remote, this`lastSentValue, this`proxyValue, this`base, filter
      ensures View() == DiffStep(keyboard, old(View()), false, currentValue, now)
    {
      var whole := true;
      if |currentValue| > |lastSentValue| && lastSentValue <= currentValue {
        whole := SendFiltered(currentValue[|lastSentValue|..], now);
        whole := whole || isComposing;
      } else if currentValue != lastSentValue {
        if isComposing {
          SendDiff(lastSentValue, currentValue, now);
        } else {
          SendBackspacesFor(lastSentValue);
          whole := SendFiltered(currentValue, now);
        }
      }
      if whole {
        lastSentValue := currentValue;
      } else {
        ClearProxy();
      }
    }

    method OnProxyInput(deletes: bool, currentValue: Text, now: int)
      modifies this, filter
      ensures View() == InputStep(keyboard, old(View()), deletes, currentValue, now)
    {
      proxyValue := currentValue;
      pendingBackspace := false;
      if mirror {
        if currentValue != lastSentValue {
          SendDiff(lastSentValue, currentValue, now);
        }
        lastSentValue := currentValue;
      } else if deletes && |currentValue| >= |lastSentValue| {
        SendBackspace();
        lastSentValue := currentValue;
      } else if |currentValue| < |lastSentValue| {
        SendShrink(currentValue);
      } else {
        SendChange(currentValue, now);
      }
    }

    method OnCompositionStart()
      modifies this`isComposing
      ensures View() == Step(keyboard, old(View()), Composing(true))
    {
      isComposing := true;
    }

    method OnCompositionEnd(data: Text)
      modifies this`isComposing, this`proxyValue, this`remote
      ensures View() == Step(keyboard, old(View()), CompositionEnds(data))
    {
      isComposing := false;
      if !mirror {
        return;
      }
      if data != [] {
        SendText(data);
      } else {
        assert remote + [] == remote;
      }
      proxyValue := [];
    }

    /** Backspace on an empty field, from keydown or beforeinput. */
    method OnDeleteKey()
      modifies this`remote, this`base
      ensures View() == Step(keyboard, old(View()), DeleteOnEmpty)
    {
      if proxyValue == [] {
        SendBackspace();
      }
    }

    method DeferBackspace()
      modifies this`pendingBackspace
      ensures View() == Step(keyboard, old(View()), AmbiguousKey)
    {
      pendingBackspace := true;
    }

    method OnTimer(sameField: bool)
      modifies this`pendingBackspace, this`remote, this`base
      ensures View() == Step(keyboard, old(View()), TimerFires(sameField))
    {
      if pendingBackspace {
        pendingBackspace := false;
        if sameField {
          SendBackspace();
        }
      }
    }

    /** `seedProxyMirror` and `adoptRemoteValue`: the reported value becomes the field and the baseline. */
    method Adopt(reported: Text)
      modifies this`proxyValue, this`lastSentValue, this`base
      ensures View() == Step(keyboard, old(View()), AdoptValue(reported))
    {
      proxyValue := reported;
      lastSentValue := reported;
      base := [];
    }
  }
}

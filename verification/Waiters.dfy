/** Matching answers to offers: the waiter maps of the connection ladders, with the threads that
    deliver answers, over every interleaving. Each lock-protected region is one step. */
module Waiters {
  import opened Base

  datatype Rung = PunchRung | RtcRung

  /** A negotiation; the source keeps one map of waiters for each rung. */
  datatype Key = Key(rung: Rung, sid: string)

  type Answer = string

  /** Where a ladder is on the two rungs that wait for an answer. */
  datatype LadderPc =
    | Ready(rung: Rung)                      // about to draw a sid and register a waiter
    | Offering(key: Key)                     // registered, offer not yet sent
    | Waiting(key: Key)                      // offer sent, blocked on the channel
    | Answered(key: Key, answer: Answer)     // got it, about to remove the waiter
    | GivingUp(key: Key)                     // offer failed or timed out, about to remove the waiter
    | Over                                   // past both rungs

  /** Where a thread handling an answer signal is. */
  datatype SignalPc =
    | Arrived(key: Key, answer: Answer)
    | Holding(key: Key, answer: Answer)      // took the waiter's sender out of the map
    | Handled

  datatype Delivery = Delivery(key: Key, ladder: nat, answer: Answer)

  datatype State = State(
    waiters: map<Key, nat>,                  // whose channel the sender belongs to
    ladders: seq<LadderPc>,
    signals: seq<SignalPc>,
    channels: map<Key, seq<Answer>>,         // sent, not yet received
    issuer: map<Key, nat>,                   // every sid drawn so far, and by whom
    delivered: seq<Delivery>)

  const INIT := State(map[], [], [], map[], map[], [])

  datatype Action =
    | Connect                                // a ladder starts
    | Register(t: nat, sid: string)          // uuid::new_v4: never drawn before
    | Offer(t: nat, ok: bool)
    | Receive(t: nat)
    | TimeOut(t: nat)
    | Unregister(t: nat)
    | Skip(t: nat)                           // nothing to offer on this rung, or a link came up
    | Signal(key: Key, answer: Answer)       // an answer arrives, wanted or not
    | TakeWaiter(g: nat)
    | Send(g: nat)

  function After(rung: Rung): LadderPc {
    if rung == PunchRung then Ready(RtcRung) else Over
  }

  function ChannelOf(s: State, key: Key): seq<Answer> {
    if key in s.channels then s.channels[key] else []
  }

  function Next(s: State, act: Action): Option<State> {
    match act
    case Connect => Some(s.(ladders := s.ladders + [Ready(PunchRung)]))
    case Register(t, sid) =>
      if t >= |s.ladders| || !s.ladders[t].Ready? then None
      else
        var key := Key(s.ladders[t].rung, sid);
        if key in s.issuer then None
        else Some(s.(waiters := s.waiters[key := t], issuer := s.issuer[key := t],
                     ladders := s.ladders[t := Offering(key)]))
    case Offer(t, ok) =>
      if t >= |s.ladders| || !s.ladders[t].Offering? then None
      else Some(s.(ladders := s.ladders[t := if ok then Waiting(s.ladders[t].key) else GivingUp(s.ladders[t].key)]))
    case Receive(t) =>
      if t >= |s.ladders| || !s.ladders[t].Waiting? || ChannelOf(s, s.ladders[t].key) == [] then None
      else
        var key := s.ladders[t].key;
        var queue := ChannelOf(s, key);
        Some(s.(channels := s.channels[key := queue[1..]], ladders := s.ladders[t := Answered(key, queue[0])],
                delivered := s.delivered + [Delivery(key, t, queue[0])]))
    case TimeOut(t) =>
      if t >= |s.ladders| || !s.ladders[t].Waiting? || ChannelOf(s, s.ladders[t].key) != [] then None
      else Some(s.(ladders := s.ladders[t := GivingUp(s.ladders[t].key)]))
    case Unregister(t) =>
      if t >= |s.ladders| || !(s.ladders[t].Answered? || s.ladders[t].GivingUp?) then None
      else Some(s.(waiters := s.waiters - {s.ladders[t].key}, ladders := s.ladders[t := After(s.ladders[t].key.rung)]))
    case Skip(t) =>
      if t >= |s.ladders| || !s.ladders[t].Ready? then None
      else Some(s.(ladders := s.ladders[t := After(s.ladders[t].rung)]))
    case Signal(key, answer) => Some(s.(signals := s.signals + [Arrived(key, answer)]))
    case TakeWaiter(g) =>
      if g >= |s.signals| || !s.signals[g].Arrived? then None
      else
        var a := s.signals[g];
        if a.key in s.waiters then
          Some(s.(waiters := s.waiters - {a.key}, signals := s.signals[g := Holding(a.key, a.answer)]))
        else Some(s.(signals := s.signals[g := Handled]))
    case Send(g) =>
      if g >= |s.signals| || !s.signals[g].Holding? then None
      else
        var h := s.signals[g];
        Some(s.(channels := s.channels[h.key := ChannelOf(s, h.key) + [h.answer]], signals := s.signals[g := Handled]))
  }

  function RunFrom(s: State, acts: seq<Action>): Option<State>
    decreases |acts|
  {
    if acts == [] then Some(s)
    else
      var n := Next(s, acts[0]);
      if n.None? then None else RunFrom(n.value, acts[1..])
  }

  // ---------------------------------------------------------------- one token a negotiation

  function Held(signals: seq<SignalPc>, key: Key): nat {
    if signals == [] then 0
    else
      var last := signals[|signals| - 1];
      Held(signals[..|signals| - 1], key) + (if last.Holding? && last.key == key then 1 else 0)
  }

  function Handed(delivered: seq<Delivery>, key: Key): nat {
    if delivered == [] then 0
    else Handed(delivered[..|delivered| - 1], key) + (if delivered[|delivered| - 1].key == key then 1 else 0)
  }

  /** The waiter, the sender a signal thread took, the answer in the channel and the answer the
      ladder got are the same token at different places. */
  function Tokens(s: State, key: Key): nat {
    (if key in s.waiters then 1 else 0) + Held(s.signals, key) + |ChannelOf(s, key)| + Handed(s.delivered, key)
  }

  lemma {:induction false} HeldUpdate(signals: seq<SignalPc>, g: nat, pc: SignalPc, key: Key)
    requires g < |signals|
    ensures Held(signals[g := pc], key) + (if signals[g].Holding? && signals[g].key == key then 1 else 0)
            == Held(signals, key) + (if pc.Holding? && pc.key == key then 1 else 0)
    decreases |signals|
  {
    var n := |signals| - 1;
    if g == n {
      assert signals[g := pc][..n] == signals[..n];
    } else {
      assert signals[g := pc][..n] == signals[..n][g := pc];
      HeldUpdate(signals[..n], g, pc, key);
    }
  }

  /** The negotiation a ladder is in the middle of. */
  predicate InOffer(pc: LadderPc, key: Key) {
    (pc.Offering? || pc.Waiting? || pc.GivingUp?) && pc.key == key
  }

  predicate Busy(pc: LadderPc) {
    pc.Offering? || pc.Waiting? || pc.GivingUp? || pc.Answered?
  }

  ghost predicate OneToken(s: State) {
    forall key :: Tokens(s, key) <= if key in s.issuer then 1 else 0
  }

  /** The waiter of `key` belongs to the ladder that drew its sid, and that ladder is still between
      registering it and removing it. */
  predicate WaiterInOffer(s: State, key: Key) {
    key in s.issuer && key in s.waiters && s.waiters[key] == s.issuer[key] < |s.ladders| &&
    InOffer(s.ladders[s.issuer[key]], key)
  }

  predicate WaitersInOffer(s: State) {
    forall key :: key in s.waiters ==> WaiterInOffer(s, key)
  }

  predicate LaddersOwnKeys(s: State) {
    forall t :: 0 <= t < |s.ladders| && Busy(s.ladders[t]) ==>
      s.ladders[t].key in s.issuer && s.issuer[s.ladders[t].key] == t
  }

  predicate DeliveredToIssuer(s: State) {
    forall i :: 0 <= i < |s.delivered| ==>
      s.delivered[i].key in s.issuer && s.issuer[s.delivered[i].key] == s.delivered[i].ladder
  }

  ghost predicate Disciplined(s: State) {
    OneToken(s) && WaitersInOffer(s) && LaddersOwnKeys(s) && DeliveredToIssuer(s)
  }

  /** Outside the waiter map, the tokens of a key are moved only by signal threads and receives. */
  lemma TokensElsewhere(s: State, u: State, key: Key)
    requires u.signals == s.signals && u.delivered == s.delivered && u.channels == s.channels
    ensures Tokens(u, key) + (if key in s.waiters then 1 else 0) == Tokens(s, key) + (if key in u.waiters then 1 else 0)
  {
  }

  /** A receive moves the token from the channel to the ladder. */
  lemma ReceiveTokens(s: State, t: nat, key: Key)
    requires Next(s, Receive(t)).Some?
    ensures Tokens(Next(s, Receive(t)).value, key) == Tokens(s, key)
  {
    var u := Next(s, Receive(t)).value;
    assert u.delivered[..|s.delivered|] == s.delivered;
    assert Handed(u.delivered, key) == Handed(s.delivered, key) + if s.ladders[t].key == key then 1 else 0;
  }

  /** What a ladder does with the token of a key. */
  lemma LadderTokens(s: State, act: Action, key: Key)
    requires Next(s, act).Some? && !act.Signal? && !act.TakeWaiter? && !act.Send?
    requires Tokens(s, key) <= if key in s.issuer then 1 else 0
    ensures var u := Next(s, act).value; Tokens(u, key) <= if key in u.issuer then 1 else 0
  {
    if act.Receive? {
      ReceiveTokens(s, act.t, key);
    } else {
      TokensElsewhere(s, Next(s, act).value, key);
    }
  }

  /** What a signal thread does with it. */
  lemma SignalTokens(s: State, act: Action, key: Key)
    requires Next(s, act).Some? && (act.Signal? || act.TakeWaiter? || act.Send?)
    ensures Tokens(Next(s, act).value, key) == Tokens(s, key)
  {
    var u := Next(s, act).value;
    match act
    case Signal(k, answer) => assert u.signals[..|s.signals|] == s.signals;
    case TakeWaiter(g) => HeldUpdate(s.signals, g, u.signals[g], key);
    case Send(g) => HeldUpdate(s.signals, g, Handled, key);
  }

  lemma OneTokenStep(s: State, act: Action)
    requires Next(s, act).Some? && OneToken(s)
    ensures OneToken(Next(s, act).value)
  {
    var u := Next(s, act).value;
    forall key
      ensures Tokens(u, key) <= if key in u.issuer then 1 else 0
    {
      if act.Signal? || act.TakeWaiter? || act.Send? {
        SignalTokens(s, act, key);
      } else {
        LadderTokens(s, act, key);
      }
    }
  }

  lemma WaiterStep(s: State, act: Action, key: Key)
    requires Next(s, act).Some? && Disciplined(s) && key in Next(s, act).value.waiters
    ensures WaiterInOffer(Next(s, act).value, key)
  {
    if key in s.waiters {
      assert WaiterInOffer(s, key);
      if act.Receive? {
        assert Tokens(s, key) <= 1;
      }
    }
  }

  lemma WaitersStep(s: State, act: Action)
    requires Next(s, act).Some? && Disciplined(s)
    ensures WaitersInOffer(Next(s, act).value)
  {
    forall key | key in Next(s, act).value.waiters
      ensures WaiterInOffer(Next(s, act).value, key)
    {
      WaiterStep(s, act, key);
    }
  }

  lemma OwnershipStep(s: State, act: Action)
    requires Next(s, act).Some? && LaddersOwnKeys(s) && DeliveredToIssuer(s)
    ensures LaddersOwnKeys(Next(s, act).value) && DeliveredToIssuer(Next(s, act).value)
  {
  }

  lemma DisciplinedStep(s: State, act: Action)
    requires Next(s, act).Some? && Disciplined(s)
    ensures Disciplined(Next(s, act).value)
  {
    OneTokenStep(s, act);
    WaitersStep(s, act);
    OwnershipStep(s, act);
  }

  lemma {:induction false} DisciplinedRun(s: State, acts: seq<Action>)
    requires Disciplined(s) && RunFrom(s, acts).Some?
    ensures Disciplined(RunFrom(s, acts).value)
    decreases |acts|
  {
    if acts != [] {
      DisciplinedStep(s, acts[0]);
      DisciplinedRun(Next(s, acts[0]).value, acts[1..]);
    }
  }

  // ---------------------------------------------------------------- what is promised

  /** Waiter discipline: in every reachable state each waiter belongs to the ladder that drew its
      sid, still in that rung's offer and wait. */
  lemma WaitersBelongToOffers(acts: seq<Action>, key: Key)
    requires RunFrom(INIT, acts).Some?
    ensures var s := RunFrom(INIT, acts).value;
            key in s.waiters ==> WaiterInOffer(s, key)
  {
    DisciplinedRun(INIT, acts);
  }

  /** An answer reaches only the ladder that drew its sid, and each sid at most once, however many
      answers arrive for it and whenever they do. */
  lemma AnswersReachTheirLadderOnce(acts: seq<Action>, i: nat, j: nat)
    requires RunFrom(INIT, acts).Some?
    requires i <= j < |RunFrom(INIT, acts).value.delivered|
    ensures var s := RunFrom(INIT, acts).value;
            s.delivered[i].key in s.issuer && s.delivered[i].ladder == s.issuer[s.delivered[i].key] &&
            (s.delivered[i].key == s.delivered[j].key ==> i == j)
  {
    DisciplinedRun(INIT, acts);
    var s := RunFrom(INIT, acts).value;
    var key := s.delivered[i].key;
    if i < j && s.delivered[j].key == key {
      assert Tokens(s, key) <= 1;
      HandedTwice(s.delivered, i, j);
    }
  }

  lemma {:induction false} HandedTwice(delivered: seq<Delivery>, i: nat, j: nat)
    requires i < j < |delivered| && delivered[i].key == delivered[j].key
    ensures Handed(delivered, delivered[i].key) >= 2
    decreases |delivered|
  {
    var n := |delivered| - 1;
    if j < n {
      HandedTwice(delivered[..n], i, j);
    } else {
      HandedOnce(delivered[..n], i);
    }
  }

  lemma {:induction false} HandedOnce(delivered: seq<Delivery>, i: nat)
    requires i < |delivered|
    ensures Handed(delivered, delivered[i].key) >= 1
    decreases |delivered|
  {
    if i < |delivered| - 1 {
      HandedOnce(delivered[..|delivered| - 1], i);
    }
  }

  /** A ladder past the negotiating rungs leaves no waiter, whatever the others are doing and whatever
      answers are still on their way; so once all are, both maps are empty. */
  lemma FinishedLaddersLeaveNothing(acts: seq<Action>, t: nat)
    requires RunFrom(INIT, acts).Some?
    requires t < |RunFrom(INIT, acts).value.ladders|
    ensures var s := RunFrom(INIT, acts).value;
            (s.ladders[t].Over? ==>
              forall key :: key in s.waiters ==> s.waiters[key] != t && key in s.issuer && s.issuer[key] != t) &&
            ((forall l :: 0 <= l < |s.ladders| ==> s.ladders[l].Over?) ==> s.waiters == map[])
  {
    DisciplinedRun(INIT, acts);
    var s := RunFrom(INIT, acts).value;
    forall key | key in s.waiters
      ensures WaiterInOffer(s, key)
    {
    }
  }

  /** An answer that finds its waiter is delivered: from any disciplined state in which an answer has
      arrived for a ladder that waits for it, the thread that handles it and the ladder can take three
      steps, after which the ladder has the answer and the waiter is gone. */
  lemma AnswerIsDelivered(s: State, g: nat, t: nat)
    requires Disciplined(s) && g < |s.signals| && s.signals[g].Arrived? && s.signals[g].key in s.waiters
    requires t == s.waiters[s.signals[g].key] && t < |s.ladders| && s.ladders[t] == Waiting(s.signals[g].key)
    ensures var key, answer := s.signals[g].key, s.signals[g].answer;
            var r := RunFrom(s, [TakeWaiter(g), Send(g), Receive(t)]);
            r.Some? && r.value.delivered == s.delivered + [Delivery(key, t, answer)] &&
            r.value.ladders == s.ladders[t := Answered(key, answer)] && r.value.signals == s.signals[g := Handled] &&
            r.value.waiters == s.waiters - {key} && ChannelOf(r.value, key) == []
  {
    var key, answer := s.signals[g].key, s.signals[g].answer;
    assert Tokens(s, key) <= 1;
    var a := s.(waiters := s.waiters - {key}, signals := s.signals[g := Holding(key, answer)]);
    var b := a.(channels := s.channels[key := [answer]], signals := s.signals[g := Handled]);
    assert a.signals[g := Handled] == b.signals && ChannelOf(s, key) + [answer] == [answer];
    SendReaches(a, g);
    ReceiveReaches(b, t, key, answer);
    ThreeSteps(s, a, b, Next(b, Receive(t)).value, [TakeWaiter(g), Send(g), Receive(t)]);
  }

  lemma SendReaches(s: State, g: nat)
    requires g < |s.signals| && s.signals[g].Holding?
    ensures var key, answer := s.signals[g].key, s.signals[g].answer;
            Next(s, Send(g)) == Some(s.(channels := s.channels[key := ChannelOf(s, key) + [answer]],
                                        signals := s.signals[g := Handled]))
  {
  }

  lemma ReceiveReaches(s: State, t: nat, key: Key, answer: Answer)
    requires t < |s.ladders| && s.ladders[t] == Waiting(key) && ChannelOf(s, key) == [answer]
    ensures Next(s, Receive(t)) ==
              Some(s.(channels := s.channels[key := []], ladders := s.ladders[t := Answered(key, answer)],
                      delivered := s.delivered + [Delivery(key, t, answer)]))
  {
    assert ChannelOf(s, key)[1..] == [];
  }

  lemma ThreeSteps(s: State, a: State, b: State, c: State, acts: seq<Action>)
    requires |acts| == 3 && Next(s, acts[0]) == Some(a) && Next(a, acts[1]) == Some(b) && Next(b, acts[2]) == Some(c)
    ensures RunFrom(s, acts) == Some(c)
  {
    var last := acts[1..][1..];
    assert last[0] == acts[2] && last[1..] == [];
    assert RunFrom(b, last) == Some(c);
    assert RunFrom(a, acts[1..]) == RunFrom(b, last);
  }

  /** An answer for which there is no waiter, or no longer, changes nothing. */
  lemma StrayAnswerIsDropped(s: State, g: nat)
    requires g < |s.signals| && s.signals[g].Arrived? && s.signals[g].key !in s.waiters
    ensures Next(s, TakeWaiter(g)) == Some(s.(signals := s.signals[g := Handled]))
  {
  }

  // ---------------------------------------------------------------- how a negotiation goes

  /** Where a ladder goes on after a rung: from hole punching to WebRTC, and from there nowhere. */
  predicate GoesOnTo(rung: Rung, pc: LadderPc) {
    match rung
    case PunchRung => pc == Ready(RtcRung)
    case RtcRung => pc == Over
  }

  /** A ladder starts with hole punching before it. */
  lemma LadderStarts(s: State)
    ensures Next(s, Connect) == Some(s.(ladders := s.ladders + [Ready(PunchRung)]))
  {
  }

  /** A ladder draws a sid nobody has used and registers its own channel under it, before it offers. */
  lemma RegisterOpens(s: State, t: nat, sid: string)
    requires t < |s.ladders| && s.ladders[t].Ready? && Key(s.ladders[t].rung, sid) !in s.issuer
    ensures var key := Key(s.ladders[t].rung, sid);
            Next(s, Register(t, sid)) ==
              Some(s.(waiters := s.waiters[key := t], issuer := s.issuer[key := t], ladders := s.ladders[t := Offering(key)]))
  {
  }

  /** An offer that cannot be sent ends the negotiation at once; one that is sent is waited for. */
  lemma OfferDecides(s: State, t: nat, ok: bool)
    requires t < |s.ladders| && s.ladders[t].Offering?
    ensures Next(s, Offer(t, ok)) ==
              Some(s.(ladders := s.ladders[t := if ok then Waiting(s.ladders[t].key) else GivingUp(s.ladders[t].key)]))
  {
  }

  /** A waiting ladder takes an answer if there is one and can give up only if there is none. */
  lemma WaitingDecides(s: State, t: nat)
    requires t < |s.ladders| && s.ladders[t].Waiting?
    ensures Next(s, Receive(t)).Some? <==> Next(s, TimeOut(t)).None?
    ensures Next(s, TimeOut(t)).Some? ==> Next(s, TimeOut(t)).value == s.(ladders := s.ladders[t := GivingUp(s.ladders[t].key)])
  {
  }

  /** A negotiation that is over leaves no waiter, and the ladder goes on to the next rung. */
  lemma UnregisterCloses(s: State, t: nat)
    requires t < |s.ladders| && (s.ladders[t].Answered? || s.ladders[t].GivingUp?)
    ensures var u := Next(s, Unregister(t));
            u.Some? && u.value.waiters == s.waiters - {s.ladders[t].key} && |u.value.ladders| == |s.ladders| &&
            GoesOnTo(s.ladders[t].key.rung, u.value.ladders[t]) && u.value.delivered == s.delivered
  {
  }

  /** What a ladder without a negotiation on a rung does: the same. */
  lemma SkipGoesOn(s: State, t: nat)
    requires t < |s.ladders| && s.ladders[t].Ready?
    ensures var u := Next(s, Skip(t));
            u.Some? && |u.value.ladders| == |s.ladders| && GoesOnTo(s.ladders[t].rung, u.value.ladders[t]) &&
            u.value.waiters == s.waiters
  {
  }

  /** Up to the arrival of an answer. */
  function OfferActions(t: nat, key: Key, answer: Answer): seq<Action> {
    [Register(t, key.sid), Offer(t, true), Signal(key, answer)]
  }

  lemma OfferIsOut(s: State, t: nat, sid: string, answer: Answer) returns (c: State)
    requires Disciplined(s) && t < |s.ladders| && s.ladders[t].Ready? && Key(s.ladders[t].rung, sid) !in s.issuer
    ensures var key := Key(s.ladders[t].rung, sid);
            RunFrom(s, OfferActions(t, key, answer)) == Some(c) && Disciplined(c) &&
            c.ladders == s.ladders[t := Waiting(key)] && c.signals == s.signals + [Arrived(key, answer)] &&
            c.waiters == s.waiters[key := t] && c.delivered == s.delivered
  {
    var key := Key(s.ladders[t].rung, sid);
    RegisterOpens(s, t, sid);
    DisciplinedStep(s, Register(t, sid));
    var a := Next(s, Register(t, sid)).value;
    OfferDecides(a, t, true);
    DisciplinedStep(a, Offer(t, true));
    var b := Next(a, Offer(t, true)).value;
    DisciplinedStep(b, Signal(key, answer));
    c := Next(b, Signal(key, answer)).value;
    ThreeSteps(s, a, b, c, OfferActions(t, key, answer));
    assert s.ladders[t := Offering(key)][t := Waiting(key)] == s.ladders[t := Waiting(key)];
  }

  /** A whole negotiation: a ladder that draws a new sid, offers under it and gets an answer in time has
      that answer and no waiter left, whatever state the other ladders are in. */
  lemma NegotiationSucceeds(s: State, t: nat, sid: string, answer: Answer)
    requires Disciplined(s) && t < |s.ladders| && s.ladders[t].Ready? && Key(s.ladders[t].rung, sid) !in s.issuer
    ensures var key, g := Key(s.ladders[t].rung, sid), |s.signals|;
            var r := RunFrom(s, OfferActions(t, key, answer) + [TakeWaiter(g), Send(g), Receive(t)]);
            r.Some? && r.value.ladders == s.ladders[t := Answered(key, answer)] &&
            r.value.delivered == s.delivered + [Delivery(key, t, answer)] && r.value.waiters == s.waiters
  {
    var key, g := Key(s.ladders[t].rung, sid), |s.signals|;
    var c := OfferIsOut(s, t, sid, answer);
    AnswerIsDelivered(c, g, t);
    RunAppend(s, OfferActions(t, key, answer), [TakeWaiter(g), Send(g), Receive(t)]);
    assert key in s.waiters ==> WaiterInOffer(s, key);
    assert s.waiters[key := t] - {key} == s.waiters;
    assert c.ladders[t := Answered(key, answer)] == s.ladders[t := Answered(key, answer)];
  }

  lemma {:induction false} RunAppend(s: State, a: seq<Action>, b: seq<Action>)
    requires RunFrom(s, a).Some?
    ensures RunFrom(s, a + b) == RunFrom(RunFrom(s, a).value, b)
    decreases |a|
  {
    if a == [] {
      assert a + b == b;
    } else {
      assert (a + b)[1..] == a[1..] + b;
      RunAppend(Next(s, a[0]).value, a[1..], b);
    }
  }
}

/** When a device broadcasts what nobody copied: runs of the clipboard regions, by what the other
    devices hold, and exactly when there are any. */
module ClipboardEchoes {
  import opened Base
  import opened ClipboardRaces

  // ---------------------------------------------------------------- steps of one device

  /** How often the device broadcasts along the steps. */
  function SendCount(ps: seq<Peer>, acts: seq<Action>): nat
    requires |ps| == |acts| + 1
  {
    if acts == [] then 0 else Ind(Sends(ps[0], acts[0])) + SendCount(ps[1..], acts[1..])
  }

  /** The steps take device `d` from each state to the next; its user does not copy. */
  predicate Chain(ps: seq<Peer>, acts: seq<Action>, d: nat) {
    |ps| == |acts| + 1 && NoCopies(acts) &&
    forall n :: 0 <= n < |acts| ==> acts[n].d == d && Enabled(ps[n], acts[n]) && Step(ps[n], acts[n]) == ps[n + 1]
  }

  /** What the steps need of the other devices is there. */
  predicate AllSourced(s: System, acts: seq<Action>) {
    forall n :: 0 <= n < |acts| ==> Sourced(s, acts[n])
  }

  /** The other devices are as they were, and no broadcast is forgotten. */
  predicate OnlyMoved(s: System, t: System, d: nat) {
    WellFormed(s) && WellFormed(t) && |t.peers| == |s.peers| && s.sent <= t.sent &&
    forall i :: 0 <= i < |s.peers| && i != d ==>
      t.peers[i] == s.peers[i] && t.copies[i] == s.copies[i] && t.broadcasts[i] == s.broadcasts[i]
  }

  predicate NoCopies(acts: seq<Action>) {
    forall n :: 0 <= n < |acts| ==> !acts[n].Copy?
  }

  /** Steps of one device make a run of the system. */
  lemma {:induction false} ChainRuns(s: System, d: nat, ps: seq<Peer>, acts: seq<Action>)
    requires WellFormed(s) && d < |s.peers| && Chain(ps, acts, d) && AllSourced(s, acts) && ps[0] == s.peers[d]
    ensures RunFrom(s, acts).Some?
    ensures var t := RunFrom(s, acts).value;
            OnlyMoved(s, t, d) && t.peers[d] == ps[|acts|] && t.copies == s.copies &&
            t.broadcasts[d] == s.broadcasts[d] + SendCount(ps, acts)
    decreases |acts|
  {
    if acts != [] {
      var u := Next(s, acts[0]);
      assert OnlyMoved(s, u, d);
      SourcedLater(s, u, d, acts);
      ChainRuns(u, d, ps[1..], acts[1..]);
    }
  }

  lemma SourcedLater(s: System, u: System, d: nat, acts: seq<Action>)
    requires acts != [] && AllSourced(s, acts) && OnlyMoved(s, u, d) && forall n :: 0 <= n < |acts| ==> acts[n].d == d
    ensures AllSourced(u, acts[1..])
  {
    forall n | 0 <= n < |acts| - 1
      ensures Sourced(u, acts[1..][n])
    {
      assert acts[1..][n] == acts[n + 1] && Sourced(s, acts[n + 1]);
    }
  }

  lemma ChainAppend(ps: seq<Peer>, acts: seq<Action>, qs: seq<Peer>, more: seq<Action>, d: nat)
    requires Chain(ps, acts, d) && Chain(qs, more, d) && ps[|acts|] == qs[0]
    ensures Chain(ps + qs[1..], acts + more, d)
  {
    var all, run := ps + qs[1..], acts + more;
    forall n | 0 <= n < |run|
      ensures run[n].d == d && Enabled(all[n], run[n]) && Step(all[n], run[n]) == all[n + 1]
    {
      if n < |acts| {
        assert run[n] == acts[n] && all[n] == ps[n] && all[n + 1] == ps[n + 1];
      } else {
        var m := n - |acts|;
        assert run[n] == more[m] && all[n] == qs[m] && all[n + 1] == qs[m + 1];
      }
    }
  }

  lemma {:induction false} NothingSent(ps: seq<Peer>, acts: seq<Action>)
    requires |ps| == |acts| + 1
    requires forall n :: 0 <= n < |acts| ==> !Sends(ps[n], acts[n])
    ensures SendCount(ps, acts) == 0
    decreases |acts|
  {
    if acts != [] {
      NothingSent(ps[1..], acts[1..]);
    }
  }

  lemma {:induction false} FinishingIsNoCopy(s: System, acts: seq<Action>, d: nat)
    requires WellFormed(s) && JustFinishing(s, acts, d) && RunFrom(s, acts).Some?
    ensures NoCopies(acts)
    decreases |acts|
  {
    if acts != [] {
      FinishingIsNoCopy(Next(s, acts[0]), acts[1..], d);
    }
  }

  lemma {:induction false} RunAppend(s: System, a: seq<Action>, b: seq<Action>)
    requires WellFormed(s) && RunFrom(s, a).Some?
    ensures RunFrom(s, a + b) == RunFrom(RunFrom(s, a).value, b)
    decreases |a|
  {
    if a == [] {
      assert a + b == b;
    } else {
      assert (a + b)[1..] == a[1..] + b;
      RunAppend(Next(s, a[0]), a[1..], b);
    }
  }

  // ---------------------------------------------------------------- echoes

  /** The run makes device `d` broadcast `n` times although nobody copies anything. */
  predicate Echoes(s: System, acts: seq<Action>, d: nat, n: nat)
    requires WellFormed(s) && d < |s.peers|
  {
    NoCopies(acts) && RunFrom(s, acts).Some? &&
    var t := RunFrom(s, acts).value;
    t.copies == s.copies && t.broadcasts[d] == s.broadcasts[d] + n
  }

  ghost predicate CanEcho(s: System, d: nat, n: nat)
    requires WellFormed(s) && d < |s.peers|
  {
    exists acts :: Echoes(s, acts, d, n)
  }

  /** Steps of a device that send nothing are followed by what it then owes. */
  lemma ChainThenFinish(s: System, d: nat, ps: seq<Peer>, acts: seq<Action>)
    requires WellFormed(s) && d < |s.peers| && Chain(ps, acts, d) && AllSourced(s, acts) && ps[0] == s.peers[d]
    requires forall n :: 0 <= n < |acts| ==> !Sends(ps[n], acts[n])
    ensures CanEcho(s, d, Owed(ps[|acts|]))
  {
    NothingSent(ps, acts);
    ChainRuns(s, d, ps, acts);
    var u := RunFrom(s, acts).value;
    var rest := OwedIsBroadcast(u, d);
    FinishingIsNoCopy(u, rest, d);
    RunAppend(s, acts, rest);
    assert Echoes(s, acts + rest, d, Owed(ps[|acts|]));
  }

  lemma EchoLater(s: System, acts: seq<Action>, d: nat, n: nat)
    requires WellFormed(s) && d < |s.peers| && NoCopies(acts) && RunFrom(s, acts).Some?
    requires var u := RunFrom(s, acts).value;
             u.copies == s.copies && u.broadcasts[d] == s.broadcasts[d] && CanEcho(u, d, n)
    ensures CanEcho(s, d, n)
  {
    var u := RunFrom(s, acts).value;
    var more :| Echoes(u, more, d, n);
    RunAppend(s, acts, more);
    assert Echoes(s, acts + more, d, n);
  }

  /** A device whose sync is on, that has seen the text in its clipboard, and that has nothing going
      on. */
  predicate UpToDate(p: Peer) {
    p.capable && p == Quiet(true, p.clip, TextIn(p), true)
  }

  function TornPushActions(d: nat, e: nat, b: string): seq<Action> {
    [Admit(d, e, b), PushLast(d, b), Watch(d), Watch(d)]
  }

  function TornPushStates(p: Peer, b: string): seq<Peer> {
    var half := p.(last := b, pushes := [b]);
    [p, p.(admitted := multiset{b}), half, half.(watcher := Reading), half.(watcher := Comparing(TextIn(p)))]
  }

  lemma TornPushChain(p: Peer, d: nat, e: nat, b: string)
    requires UpToDate(p) && TextIn(p) != ""
    ensures Chain(TornPushStates(p, b), TornPushActions(d, e, b), d)
  {
    var ps := TornPushStates(p, b);
    assert Step(ps[0], Admit(d, e, b)) == ps[1] && Step(ps[1], PushLast(d, b)) == ps[2];
    assert Watched(ps[2]) == ps[3] && Watched(ps[3]) == ps[4];
  }

  /** If the watcher reads the clipboard between the two writes of a push of another device, this one
      echoes twice: the old text and the pushed one. */
  lemma TornPushEchoes(s: System, d: nat, e: nat, b: string)
    requires WellFormed(s) && d < |s.peers| && UpToDate(s.peers[d])
    requires e != d && (e, b) in s.sent
    requires TextIn(s.peers[d]) != "" && b != "" && b != TextIn(s.peers[d])
    ensures CanEcho(s, d, 2)
  {
    TornPushChain(s.peers[d], d, e, b);
    ChainThenFinish(s, d, TornPushStates(s.peers[d], b), TornPushActions(d, e, b));
  }

  function TornTickActions(d: nat, e: nat, b: string): seq<Action> {
    [Watch(d), Watch(d)] + [Answer(d, e, b), PullClip(d, b), PullLast(d, 0)]
  }

  function PullStates(p: Peer, b: string): seq<Peer> {
    var half := p.(clip := Some(b), pulls := [b]);
    [p, p.(answers := multiset{b}), half, half.(last := b, pulls := [])]
  }

  function TornTickStates(p: Peer, b: string): seq<Peer> {
    [p, p.(watcher := Reading)] + PullStates(p.(watcher := Comparing(TextIn(p))), b)
  }

  lemma PullChain(p: Peer, d: nat, e: nat, b: string)
    requires p.capable && p.answers == multiset{} && p.pulls == []
    ensures Chain(PullStates(p, b), [Answer(d, e, b), PullClip(d, b), PullLast(d, 0)], d)
  {
    var ps := PullStates(p, b);
    assert Step(ps[0], Answer(d, e, b)) == ps[1] && Step(ps[1], PullClip(d, b)) == ps[2];
    assert Without([b], 0) == [];
  }

  lemma TornTickChain(p: Peer, d: nat, e: nat, b: string)
    requires UpToDate(p) && TextIn(p) != ""
    ensures Chain(TornTickStates(p, b), TornTickActions(d, e, b), d)
  {
    var reading, comparing := p.(watcher := Reading), p.(watcher := Comparing(TextIn(p)));
    assert Watched(p) == reading && Watched(reading) == comparing;
    PullChain(comparing, d, e, b);
    ChainAppend([p, reading, comparing], [Watch(d), Watch(d)], PullStates(comparing, b),
                [Answer(d, e, b), PullClip(d, b), PullLast(d, 0)], d);
    assert [p, reading, comparing] + PullStates(comparing, b)[1..] == TornTickStates(p, b);
  }

  /** If a whole pull from a device that reads another text falls between the watcher's look at the
      clipboard and its comparison, the device echoes the old text, and the pulled one if there is
      any. */
  lemma TornTickEchoes(s: System, d: nat, e: nat)
    requires WellFormed(s) && d < |s.peers| && e < |s.peers| && e != d && UpToDate(s.peers[d])
    requires TextIn(s.peers[d]) != "" && TextIn(s.peers[e]) != TextIn(s.peers[d])
    ensures CanEcho(s, d, if TextIn(s.peers[e]) == "" then 1 else 2)
  {
    var b := TextIn(s.peers[e]);
    TornTickChain(s.peers[d], d, e, b);
    ChainThenFinish(s, d, TornTickStates(s.peers[d], b), TornTickActions(d, e, b));
  }

  function TornPullActions(d: nat, e: nat, b: string): seq<Action> {
    [Answer(d, e, b), PullClip(d, b), Watch(d), Watch(d), Watch(d)]
  }

  function TornPullStates(p: Peer, b: string): seq<Peer> {
    var half := p.(clip := Some(b), pulls := [b]);
    [p, p.(answers := multiset{b}), half, half.(watcher := Reading), half.(watcher := Comparing(b)),
     half.(last := b, watcher := Sending(b))]
  }

  lemma TornPullChain(p: Peer, d: nat, e: nat, b: string)
    requires UpToDate(p) && b != "" && b != TextIn(p)
    ensures Chain(TornPullStates(p, b), TornPullActions(d, e, b), d)
  {
    var ps, acts := TornPullStates(p, b), TornPullActions(d, e, b);
    assert Step(ps[0], acts[0]) == ps[1];
    assert Step(ps[1], acts[1]) == ps[2];
    forall n | 2 <= n < 5
      ensures Step(ps[n], acts[n]) == ps[n + 1]
    {
      assert Watched(ps[n]) == ps[n + 1];
    }
  }

  /** If a whole tick falls between the two writes of a pull of some text, the device echoes that
      text. */
  lemma TornPullEchoes(s: System, d: nat, e: nat)
    requires WellFormed(s) && d < |s.peers| && e < |s.peers| && e != d && UpToDate(s.peers[d])
    requires TextIn(s.peers[e]) != "" && TextIn(s.peers[e]) != TextIn(s.peers[d])
    ensures CanEcho(s, d, 1)
  {
    var b := TextIn(s.peers[e]);
    TornPullChain(s.peers[d], d, e, b);
    ChainThenFinish(s, d, TornPullStates(s.peers[d], b), TornPullActions(d, e, b));
  }

  function TurnOnActions(p: Peer, d: nat): seq<Action> {
    if p.clip.Some? then [EnableRead(d), EnableLast(d, TextIn(p)), EnableOn(d)] else [EnableRead(d), EnableOn(d)]
  }

  function TurnOnStates(p: Peer): seq<Peer> {
    var armed, on := p.(last := TextIn(p), arming := 1), Quiet(true, p.clip, TextIn(p), true);
    if p.clip.Some? then [p, p.(seen := multiset{TextIn(p)}), armed, on] else [p, armed, on]
  }

  lemma TurnOnChain(p: Peer, d: nat)
    requires p == Quiet(true, p.clip, "", false)
    ensures Chain(TurnOnStates(p), TurnOnActions(p, d), d)
  {
    var ps := TurnOnStates(p);
    assert Step(ps[0], EnableRead(d)) == ps[1];
    if p.clip.Some? {
      assert Step(ps[1], EnableLast(d, TextIn(p))) == ps[2];
      assert Step(ps[2], EnableOn(d)) == ps[3];
    }
  }

  /** Turning sync on in a fresh system. */
  lemma TurnOn(s: System, d: nat) returns (acts: seq<Action>)
    requires WellFormed(s) && d < |s.peers| && s.peers[d] == Quiet(true, s.peers[d].clip, "", false)
    ensures RunFrom(s, acts).Some? && NoCopies(acts)
    ensures var t := RunFrom(s, acts).value;
            OnlyMoved(s, t, d) && t.peers[d] == Quiet(true, s.peers[d].clip, TextIn(s.peers[d]), true) &&
            t.copies == s.copies && t.broadcasts[d] == s.broadcasts[d]
  {
    var ps := TurnOnStates(s.peers[d]);
    acts := TurnOnActions(s.peers[d], d);
    TurnOnChain(s.peers[d], d);
    NothingSent(ps, acts);
    ChainRuns(s, d, ps, acts);
  }

  /** So the bound fails region by region: in any fresh system, a device that holds some text can
      broadcast twice once its sync is on, although nobody has ever copied anything, if another device
      holds another text. */
  lemma FreshSystemsCanEcho(s: System, d: nat, e: nat)
    requires Fresh(s) && d < |s.peers| && e < |s.peers|
    requires TextIn(s.peers[d]) != "" && TextIn(s.peers[e]) != "" && TextIn(s.peers[d]) != TextIn(s.peers[e])
    ensures CanEcho(s, d, 2) && s.copies[d] == s.broadcasts[d] == 0
  {
    var acts := TurnOn(s, d);
    TornTickEchoes(RunFrom(s, acts).value, d, e);
    EchoLater(s, acts, d, 2);
  }

  // ---------------------------------------------------------------- by way of a push

  /** The run contains one copy, by the user of `e`, and makes device `d` broadcast `n` times. */
  predicate EchoesCopy(s: System, acts: seq<Action>, d: nat, e: nat, n: nat)
    requires WellFormed(s) && d < |s.peers| && e < |s.peers|
  {
    RunFrom(s, acts).Some? &&
    var t := RunFrom(s, acts).value;
    t.copies == s.copies[e := s.copies[e] + 1] && t.broadcasts[d] == s.broadcasts[d] + n
  }

  /** The other devices are as they were, `e` has had one copy, and has broadcast `b`. */
  predicate SentBy(s: System, t: System, e: nat, b: string) {
    WellFormed(s) && WellFormed(t) && |t.peers| == |s.peers| && e < |s.peers| &&
    t.copies == s.copies[e := s.copies[e] + 1] && (e, b) in t.sent &&
    forall i :: 0 <= i < |s.peers| && i != e ==> t.peers[i] == s.peers[i] && t.broadcasts[i] == s.broadcasts[i]
  }

  function TurnStates(p: Peer): seq<Peer> {
    [p, p.(watcher := Reading), p.(watcher := Comparing(TextIn(p))), p.(last := TextIn(p), watcher := Sending(TextIn(p)))]
  }

  lemma TurnChain(p: Peer, d: nat)
    requires p.capable && p.active && p.watcher.Idle? && New(TextIn(p), p.last)
    ensures Chain(TurnStates(p), [Watch(d), Watch(d), Watch(d)], d)
  {
    var ps := TurnStates(p);
    assert Watched(ps[0]) == ps[1] && Watched(ps[1]) == ps[2] && Watched(ps[2]) == ps[3];
  }

  /** A watcher with something new to say says it. */
  lemma TurnSends(s: System, e: nat) returns (acts: seq<Action>)
    requires WellFormed(s) && e < |s.peers| && s.peers[e].watcher.Idle?
    requires s.peers[e].capable && s.peers[e].active && New(TextIn(s.peers[e]), s.peers[e].last)
    ensures RunFrom(s, acts).Some?
    ensures var t := RunFrom(s, acts).value;
            OnlyMoved(s, t, e) && t.copies == s.copies && (e, TextIn(s.peers[e])) in t.sent
  {
    var ps, turn := TurnStates(s.peers[e]), [Watch(e), Watch(e), Watch(e)];
    TurnChain(s.peers[e], e);
    ChainRuns(s, e, ps, turn);
    var v := RunFrom(s, turn).value;
    RunAppend(s, turn, [Watch(e)]);
    assert RunFrom(v, [Watch(e)]) == Some(Next(v, Watch(e)));
    acts := turn + [Watch(e)];
  }

  /** The user of `e` copies `b`, and its watcher broadcasts that. */
  lemma CopyAndSend(s: System, e: nat, b: string) returns (acts: seq<Action>)
    requires WellFormed(s) && e < |s.peers| && UpToDate(s.peers[e]) && b != "" && b != TextIn(s.peers[e])
    ensures RunFrom(s, acts).Some? && SentBy(s, RunFrom(s, acts).value, e, b)
  {
    var turn := TurnSends(Next(s, Copy(e, b)), e);
    acts := [Copy(e, b)] + turn;
    assert acts[1..] == turn;
  }

  /** From a fresh system to one in which a push of `e` is on its way. */
  lemma PushIsSent(s: System, e: nat, b: string) returns (acts: seq<Action>)
    requires Fresh(s) && e < |s.peers| && s.peers[e].capable && b != "" && b != TextIn(s.peers[e])
    ensures RunFrom(s, acts).Some? && SentBy(s, RunFrom(s, acts).value, e, b)
  {
    var one := TurnOn(s, e);
    var t := RunFrom(s, one).value;
    var two := CopyAndSend(t, e, b);
    RunAppend(s, one, two);
    acts := one + two;
    SentLater(s, t, RunFrom(t, two).value, e, b);
  }

  lemma SentLater(s: System, t: System, u: System, e: nat, b: string)
    requires e < |s.peers| && OnlyMoved(s, t, e) && t.copies == s.copies && SentBy(t, u, e, b)
    ensures SentBy(s, u, e, b)
  {
  }

  /** ... and to one in which, besides, `d` is up to date. */
  lemma PushComes(s: System, d: nat, e: nat, b: string) returns (acts: seq<Action>)
    requires Fresh(s) && d < |s.peers| && e < |s.peers| && d != e && s.peers[d].capable && s.peers[e].capable
    requires b != "" && b != TextIn(s.peers[e])
    ensures RunFrom(s, acts).Some?
    ensures var t := RunFrom(s, acts).value;
            t.copies == s.copies[e := s.copies[e] + 1] && t.broadcasts[d] == s.broadcasts[d] && (e, b) in t.sent &&
            UpToDate(t.peers[d]) && TextIn(t.peers[d]) == TextIn(s.peers[d])
  {
    var first := PushIsSent(s, e, b);
    var t := RunFrom(s, first).value;
    assert t.peers[d] == s.peers[d];
    var last := TurnOn(t, d);
    RunAppend(s, first, last);
    acts := first + last;
  }

  /** A single copy can be echoed as well: in any fresh system, a device that holds some text can
      broadcast twice after the user of another has copied a new text once, and nobody else anything. */
  lemma PushesCanEcho(s: System, d: nat, e: nat, b: string)
    requires Fresh(s) && d < |s.peers| && e < |s.peers| && d != e && s.peers[e].capable
    requires TextIn(s.peers[d]) != "" && b != "" && b != TextIn(s.peers[d]) && b != TextIn(s.peers[e])
    ensures exists acts :: EchoesCopy(s, acts, d, e, 2)
  {
    var first := PushComes(s, d, e, b);
    var t := RunFrom(s, first).value;
    TornPushEchoes(t, d, e, b);
    var rest :| Echoes(t, rest, d, 2);
    RunAppend(s, first, rest);
    assert EchoesCopy(s, first + rest, d, e, 2);
  }

  // ---------------------------------------------------------------- exactly when, from nothing

  /** All there is at the device is the text `a`, and the watcher has seen it if it looks at all. */
  predicate Tame(p: Peer, a: string) {
    TextIn(p) == a && p.admitted == multiset{} && p.pushes == [] &&
    (forall x :: x in p.answers ==> x == a) && (forall k :: 0 <= k < |p.pulls| ==> p.pulls[k] == a) &&
    (forall x :: x in p.seen ==> x == a) &&
    (p.last == a || p.last == "") && (p.active || p.arming > 0 ==> p.last == a) &&
    match p.watcher
    case Idle => true
    case Reading => p.last == a
    case Comparing(cur) => cur == a == p.last
    case Sending(_) => false
  }

  predicate AllTame(s: System, a: string) {
    WellFormed(s) && s.sent == {} && forall i :: 0 <= i < |s.peers| ==> Tame(s.peers[i], a)
  }

  lemma TameWatch(p: Peer, a: string)
    requires Tame(p, a)
    ensures Tame(Watched(p), a)
  {
  }

  lemma TamePull(p: Peer, act: Action, a: string)
    requires Tame(p, a) && Enabled(p, act)
    requires (act.Answer? && act.content == a) || act.PullClip? || act.PullLast?
    ensures Tame(Step(p, act), a)
  {
    if act.PullLast? {
      assert forall k :: 0 <= k < |p.pulls| - 1 ==> Without(p.pulls, act.k)[k] == p.pulls[if k < act.k then k else k + 1];
    }
  }

  lemma TameEnable(p: Peer, act: Action, a: string)
    requires Tame(p, a) && Enabled(p, act) && (act.EnableRead? || act.EnableLast? || act.EnableOn?)
    ensures Tame(Step(p, act), a)
  {
  }

  lemma TameStep(p: Peer, act: Action, a: string)
    requires Tame(p, a) && Enabled(p, act) && !act.Copy? && !act.Admit? && (act.Answer? ==> act.content == a)
    ensures Tame(Step(p, act), a)
  {
    match act
    case Watch(_) => TameWatch(p, a);
    case Answer(_, _, _) => TamePull(p, act, a);
    case PullClip(_, _) => TamePull(p, act, a);
    case PullLast(_, _) => TamePull(p, act, a);
    case EnableRead(_) => TameEnable(p, act, a);
    case EnableLast(_, _) => TameEnable(p, act, a);
    case EnableOn(_) => TameEnable(p, act, a);
    case Disable(_) =>
    case PushLast(_, x) => assert false;
    case PushClip(_, k) => assert false;
  }

  lemma TameMeans(s: System, act: Action, a: string)
    requires AllTame(s, a) && Possible(s, act)
    ensures !act.Admit? && (act.Answer? ==> act.content == a) && !Sends(s.peers[act.d], act)
  {
    assert Tame(s.peers[act.d], a);
    if act.Answer? {
      assert Tame(s.peers[act.from], a);
    }
  }

  lemma TameReplaced(peers: seq<Peer>, d: nat, q: Peer, a: string)
    requires d < |peers| && Tame(q, a) && forall i :: 0 <= i < |peers| ==> Tame(peers[i], a)
    ensures var now := peers[d := q]; forall i :: 0 <= i < |now| ==> Tame(now[i], a)
  {
  }

  lemma TameNext(s: System, act: Action, a: string)
    requires AllTame(s, a) && Possible(s, act) && !act.Copy?
    ensures AllTame(Next(s, act), a) && Next(s, act).broadcasts == s.broadcasts
  {
    var p := s.peers[act.d];
    var q := Step(p, act);
    TameMeans(s, act, a);
    TameStep(p, act, a);
    TameReplaced(s.peers, act.d, q, a);
    assert Next(s, act).peers == s.peers[act.d := q];
  }

  lemma {:induction false} TameRun(s: System, acts: seq<Action>, a: string)
    requires AllTame(s, a) && NoCopies(acts) && RunFrom(s, acts).Some?
    ensures RunFrom(s, acts).value.broadcasts == s.broadcasts
    decreases |acts|
  {
    if acts != [] {
      TameNext(s, acts[0], a);
      TameRun(Next(s, acts[0]), acts[1..], a);
    }
  }

  ghost predicate CanBroadcast(s: System, d: nat)
    requires WellFormed(s) && d < |s.peers|
  {
    exists n :: n > 0 && CanEcho(s, d, n)
  }

  predicate OtherText(s: System, d: nat)
    requires d < |s.peers|
  {
    exists e :: 0 <= e < |s.peers| && TextIn(s.peers[e]) != TextIn(s.peers[d])
  }

  lemma OtherTextEchoes(s: System, d: nat)
    requires Fresh(s) && d < |s.peers| && s.peers[d].capable && OtherText(s, d)
    ensures CanBroadcast(s, d)
  {
    var e :| 0 <= e < |s.peers| && TextIn(s.peers[e]) != TextIn(s.peers[d]);
    var acts := TurnOn(s, d);
    if TextIn(s.peers[e]) != "" {
      TornPullEchoes(RunFrom(s, acts).value, d, e);
    } else {
      TornTickEchoes(RunFrom(s, acts).value, d, e);
    }
    EchoLater(s, acts, d, 1);
  }

  /** A device without a clipboard never broadcasts. */
  lemma {:induction false} MuteRun(s: System, acts: seq<Action>, d: nat)
    requires WellFormed(s) && d < |s.peers| && !s.peers[d].capable && RunFrom(s, acts).Some?
    ensures RunFrom(s, acts).value.broadcasts[d] == s.broadcasts[d]
    decreases |acts|
  {
    if acts != [] {
      MuteRun(Next(s, acts[0]), acts[1..], d);
    }
  }

  /** Exactly when a device can broadcast something although nobody ever copies anything: in a fresh
      system, if and only if it has a clipboard and some device reads another text than it does. */
  lemma EchoFromNothingExactly(s: System, d: nat)
    requires Fresh(s) && d < |s.peers|
    ensures CanBroadcast(s, d) <==> s.peers[d].capable && OtherText(s, d)
  {
    if s.peers[d].capable && OtherText(s, d) {
      OtherTextEchoes(s, d);
    } else {
      forall acts, n | n > 0
        ensures !Echoes(s, acts, d, n)
      {
        if NoCopies(acts) && RunFrom(s, acts).Some? {
          if s.peers[d].capable {
            TameRun(s, acts, TextIn(s.peers[d]));
          } else {
            MuteRun(s, acts, d);
          }
        }
      }
    }
  }
}

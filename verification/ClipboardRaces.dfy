/** Clipboard gossip with every operation taken apart into its atomic regions: each look at the
    sync switch, each access to the clipboard and each region under the lock of the last-seen text is
    one step, and the steps of the watcher, of push handlers, pulls and enables interleave freely. */
module ClipboardRaces {
  import opened Base
  import Clipboard

  // ---------------------------------------------------------------- one device

  /** Where the watcher of a device is. */
  datatype Watcher =
    | Idle                      // about to look at the switch
    | Reading                   // sync was on; about to read the clipboard
    | Comparing(cur: string)    // read `cur`; about to compare it with the last-seen text
    | Sending(cur: string)      // about to broadcast `cur`

  /** A device, and the threads at work on it by where they are. One that has no clipboard (`capable`)
      has no watcher either, and takes neither pushes nor pulls. */
  datatype Peer = Peer(
    capable: bool, clip: Option<string>, last: string, active: bool, watcher: Watcher,
    admitted: multiset<string>,   // pushes that found sync on and have written nothing
    pushes: seq<string>,          // pushes that have written the last-seen text and not the clipboard, oldest first
    answers: multiset<string>,    // answers to pulls that have written nothing
    pulls: seq<string>,           // pulls that have written the clipboard and not the last-seen text, oldest first
    seen: multiset<string>,       // enables that have read the clipboard
    arming: nat)                  // enables about to turn the switch on

  datatype Action =
    | Copy(d: nat, content: string)
    | Disable(d: nat)
    | Watch(d: nat)                                // the watcher's next region
    | Admit(d: nat, from: nat, content: string)    // a push of another device arrives and looks at the switch
    | PushLast(d: nat, content: string)            // it writes the last-seen text
    | PushClip(d: nat, k: nat)                     // it writes the clipboard
    | Answer(d: nat, from: nat, content: string)   // another device reads its clipboard for a pull
    | PullClip(d: nat, content: string)            // the pull writes the clipboard
    | PullLast(d: nat, k: nat)                     // it writes the last-seen text
    | EnableRead(d: nat)
    | EnableLast(d: nat, cur: string)
    | EnableOn(d: nat)

  /** The text the clipboard gives; without one the watcher sees none, as with an empty one, and a pull
      is answered with the empty text. */
  function TextIn(p: Peer): string {
    if p.capable && p.clip.Some? then p.clip.value else ""
  }

  predicate Enabled(p: Peer, act: Action) {
    match act
    case Copy(_, _) => p.capable
    case Watch(_) => p.capable
    case PushLast(_, content) => p.capable && content in p.admitted
    case PushClip(_, k) => p.capable && k < |p.pushes|
    case Answer(_, _, _) => p.capable
    case PullClip(_, content) => p.capable && content in p.answers
    case PullLast(_, k) => p.capable && k < |p.pulls|
    case EnableLast(_, cur) => cur in p.seen
    case EnableOn(_) => p.arming > 0
    case _ => true
  }

  function Without(texts: seq<string>, k: nat): seq<string>
    requires k < |texts|
  {
    texts[..k] + texts[k + 1..]
  }

  function Step(p: Peer, act: Action): Peer
    requires Enabled(p, act)
  {
    match act
    case Copy(_, content) => p.(clip := Some(content))
    case Disable(_) => p.(active := false)
    case Watch(_) => Watched(p)
    case Admit(_, _, content) => if p.active && p.capable then p.(admitted := p.admitted + multiset{content}) else p
    case PushLast(_, content) =>
      p.(admitted := p.admitted - multiset{content}, last := content, pushes := p.pushes + [content])
    case PushClip(_, k) => p.(clip := Some(p.pushes[k]), pushes := Without(p.pushes, k))
    case Answer(_, _, content) => p.(answers := p.answers + multiset{content})
    case PullClip(_, content) =>
      p.(answers := p.answers - multiset{content}, clip := Some(content), pulls := p.pulls + [content])
    case PullLast(_, k) => p.(last := p.pulls[k], pulls := Without(p.pulls, k))
    case EnableRead(_) =>
      if p.capable && p.clip.Some? then p.(seen := p.seen + multiset{p.clip.value}) else p.(arming := p.arming + 1)
    case EnableLast(_, cur) => p.(seen := p.seen - multiset{cur}, last := cur, arming := p.arming + 1)
    case EnableOn(_) => p.(active := true, arming := p.arming - 1)
  }

  function Watched(p: Peer): Peer {
    match p.watcher
    case Idle => p.(watcher := if p.active then Reading else Idle)
    case Reading => p.(watcher := if TextIn(p) == "" then Idle else Comparing(TextIn(p)))
    case Comparing(cur) => if p.last == cur then p.(watcher := Idle) else p.(last := cur, watcher := Sending(cur))
    case Sending(_) => p.(watcher := Idle)
  }

  predicate Sends(p: Peer, act: Action) {
    act.Watch? && p.watcher.Sending?
  }

  // ---------------------------------------------------------------- many devices

  /** `sent` holds what has been broadcast, and by whom; the network may lose, delay and repeat it. */
  datatype System = System(peers: seq<Peer>, copies: seq<nat>, broadcasts: seq<nat>, sent: set<(nat, string)>)

  predicate WellFormed(s: System) {
    |s.peers| == |s.copies| == |s.broadcasts|
  }

  /** What arrives at a device comes from another one: pushes it has broadcast, answers it reads from
      its clipboard there and then. */
  predicate Sourced(s: System, act: Action) {
    match act
    case Admit(d, from, content) => from != d && (from, content) in s.sent
    case Answer(d, from, content) => from != d && from < |s.peers| && content == TextIn(s.peers[from])
    case _ => true
  }

  predicate Possible(s: System, act: Action) {
    act.d < |s.peers| && Enabled(s.peers[act.d], act) && Sourced(s, act)
  }

  function Next(s: System, act: Action): (t: System)
    requires WellFormed(s) && Possible(s, act)
    ensures WellFormed(t) && |t.peers| == |s.peers|
  {
    var d, p := act.d, s.peers[act.d];
    System(s.peers[d := Step(p, act)],
           if act.Copy? then s.copies[d := s.copies[d] + 1] else s.copies,
           if Sends(p, act) then s.broadcasts[d := s.broadcasts[d] + 1] else s.broadcasts,
           if Sends(p, act) then s.sent + {(d, p.watcher.cur)} else s.sent)
  }

  function RunFrom(s: System, acts: seq<Action>): (r: Option<System>)
    requires WellFormed(s)
    ensures r.Some? ==> WellFormed(r.value) && |r.value.peers| == |s.peers|
    decreases |acts|
  {
    if acts == [] then Some(s)
    else if !Possible(s, acts[0]) then None
    else RunFrom(Next(s, acts[0]), acts[1..])
  }

  /** A device with nothing going on. */
  function Quiet(capable: bool, clip: Option<string>, last: string, active: bool): Peer {
    Peer(capable, clip, last, active, Idle, multiset{}, [], multiset{}, [], multiset{}, 0)
  }

  /** Sync off and nothing going on anywhere; the clipboards may hold anything. */
  predicate Fresh(s: System) {
    WellFormed(s) && s.sent == {} &&
    forall i :: 0 <= i < |s.peers| ==>
      s.copies[i] == s.broadcasts[i] == 0 && s.peers[i] == Quiet(s.peers[i].capable, s.peers[i].clip, "", false)
  }

  // ---------------------------------------------------------------- what a device still owes

  function Ind(b: bool): nat {
    if b then 1 else 0
  }

  predicate New(text: string, last: string) {
    text != "" && text != last
  }

  /** The broadcasts a watcher makes if it is left alone with this text and this last-seen text. */
  function Alone(text: string, last: string, active: bool, w: Watcher): nat {
    match w
    case Idle => Ind(active && New(text, last))
    case Reading => Ind(New(text, last))
    case Comparing(cur) => Ind(cur != last) + Ind(active && New(text, cur))
    case Sending(_) => 1 + Ind(active && New(text, last))
  }

  /** What the clipboard holds once the half-done pushes have written it in turn. */
  function Text(p: Peer): string {
    if p.pushes == [] then TextIn(p) else p.pushes[|p.pushes| - 1]
  }

  /** The last-seen text once the half-done pulls have written it in turn. */
  function Last(p: Peer): string {
    if p.pulls == [] then p.last else p.pulls[|p.pulls| - 1]
  }

  /** The broadcasts a device makes if it is left alone: what is half written is written, in turn, and
      then the watcher runs (`OwedIsBroadcast`). */
  function Owed(p: Peer): nat {
    if p.capable then Alone(Text(p), Last(p), p.active, p.watcher) else 0
  }

  /** What the step adds to what the device has sent and owes, beyond the copy it may be. */
  function Rise(p: Peer, act: Action): int
    requires Enabled(p, act)
  {
    Owed(Step(p, act)) + Ind(Sends(p, act)) - Owed(p) - Ind(act.Copy?)
  }

  // ---------------------------------------------------------------- which steps raise it, given the texts

  /** A watcher finds more to say once the text and the last-seen text to come are these. */
  predicate SaysMore(p: Peer, text: string, last: string) {
    var t, l, a := Text(p), Last(p), p.active;
    match p.watcher
    case Idle => a && New(text, last) && !New(t, l)
    case Reading => New(text, last) && !New(t, l)
    case Comparing(cur) =>
      var before, after := a && New(t, cur), a && New(text, cur);
      (cur == l && cur != last && (before ==> after)) || ((cur == l || cur != last) && after && !before)
    case Sending(_) => a && New(text, last) && !New(t, l)
  }

  /** The steps after which the device owes more. */
  predicate Raises(p: Peer, act: Action) {
    var t, l, a := Text(p), Last(p), p.active;
    p.capable &&
    match act
    case Watch(_) =>
      (match p.watcher
       case Reading =>
         // it reads a text that a push is about to replace
         p.pushes != [] && TextIn(p) != "" && TextIn(p) != t && TextIn(p) != l && (a || t == l || t == "")
       case Comparing(cur) =>
         // it writes a last-seen text that a pull is about to replace
         p.pulls != [] && p.last != cur && (cur == l || (a && t == cur && t != ""))
       case _ => false)
    case PushLast(_, x) => SaysMore(p, x, if p.pulls == [] then x else l)
    case PushClip(_, k) => k == |p.pushes| - 1 > 0 && SaysMore(p, p.pushes[k - 1], l)
    case PullClip(_, x) => SaysMore(p, if p.pushes == [] then x else t, x)
    case PullLast(_, k) => k == |p.pulls| - 1 > 0 && SaysMore(p, t, p.pulls[k - 1])
    case EnableLast(_, cur) => p.pulls == [] && SaysMore(p, t, cur)
    case EnableOn(_) =>
      !a &&
      (match p.watcher
       case Reading => false
       case Comparing(cur) => New(t, cur)
       case _ => New(t, l))
    case _ => false
  }

  /** The text and the last-seen text to come, after a finished push or pull. */
  lemma FinishedPush(p: Peer, act: Action)
    requires act.PushClip? && Enabled(p, act)
    ensures var k, q := act.k, Step(p, act);
            Text(q) == (if k == |p.pushes| - 1 > 0 then p.pushes[k - 1] else Text(p)) && Last(q) == Last(p)
  {
    var rest := Without(p.pushes, act.k);
    assert |rest| == |p.pushes| - 1;
    if rest != [] {
      assert rest[|rest| - 1] == p.pushes[if act.k == |p.pushes| - 1 then act.k - 1 else |p.pushes| - 1];
    }
  }

  lemma FinishedPull(p: Peer, act: Action)
    requires act.PullLast? && Enabled(p, act)
    ensures var k, q := act.k, Step(p, act);
            Last(q) == (if k == |p.pulls| - 1 > 0 then p.pulls[k - 1] else Last(p)) && Text(q) == Text(p)
  {
    var rest := Without(p.pulls, act.k);
    assert |rest| == |p.pulls| - 1;
    if rest != [] {
      assert rest[|rest| - 1] == p.pulls[if act.k == |p.pulls| - 1 then act.k - 1 else |p.pulls| - 1];
    }
  }

  lemma SaysMoreExactly(p: Peer, text: string, last: string)
    ensures p.capable ==> (SaysMore(p, text, last) <==> Alone(text, last, p.active, p.watcher) > Owed(p))
  {
  }

  lemma PushRaises(p: Peer, act: Action)
    requires Enabled(p, act) && (act.PushLast? || act.PushClip?)
    ensures Raises(p, act) <==> Rise(p, act) > 0
    ensures act.PushClip? && act.k == 0 ==> Rise(p, act) == 0
  {
    var q := Step(p, act);
    SaysMoreExactly(p, Text(q), Last(q));
    match act
    case PushLast(_, x) => assert Text(q) == x;
    case PushClip(_, k) => FinishedPush(p, act);
  }

  lemma PullRaises(p: Peer, act: Action)
    requires Enabled(p, act) && (act.PullClip? || act.PullLast?)
    ensures Raises(p, act) <==> Rise(p, act) > 0
    ensures act.PullLast? && act.k == 0 ==> Rise(p, act) == 0
  {
    var q := Step(p, act);
    SaysMoreExactly(p, Text(q), Last(q));
    match act
    case PullClip(_, x) => assert Last(q) == x;
    case PullLast(_, k) => FinishedPull(p, act);
  }

  lemma WatchRaises(p: Peer, act: Action)
    requires Enabled(p, act) && act.Watch?
    ensures Raises(p, act) <==> Rise(p, act) > 0
  {
    match p.watcher
    case Idle =>
    case Reading =>
    case Comparing(cur) =>
    case Sending(_) =>
  }

  lemma EnableRaises(p: Peer, act: Action)
    requires Enabled(p, act) && (act.EnableLast? || act.EnableOn?)
    ensures Raises(p, act) <==> Rise(p, act) > 0
  {
    if act.EnableLast? {
      SaysMoreExactly(p, Text(p), act.cur);
    }
  }

  /** Exactly which steps make a device owe more than they allow it, by the texts they meet. */
  lemma RaisesExactly(p: Peer, act: Action)
    requires Enabled(p, act)
    ensures Raises(p, act) <==> Rise(p, act) > 0
  {
    match act
    case Watch(_) => WatchRaises(p, act);
    case PushLast(_, _) => PushRaises(p, act);
    case PushClip(_, _) => PushRaises(p, act);
    case PullClip(_, _) => PullRaises(p, act);
    case PullLast(_, _) => PullRaises(p, act);
    case EnableLast(_, _) => EnableRaises(p, act);
    case EnableOn(_) => EnableRaises(p, act);
    case _ =>
  }

  // ---------------------------------------------------------------- which steps can raise it, whatever the texts

  /** The step meets another operation half done, in a way that matters: by where the watcher is, how
      many pushes and pulls are between their writes, whether sync is on, and, for an enable, whether
      there is a text that it has not looked at. No text counts otherwise. */
  predicate Disturbs(p: Peer, act: Action) {
    p.capable &&
    match act
    case Watch(_) => (p.watcher.Reading? && p.pushes != []) || (p.watcher.Comparing? && p.pulls != [])
    case PushLast(_, _) => if p.pulls == [] then p.watcher.Comparing? else p.active || p.watcher.Reading?
    case PushClip(_, k) => k == |p.pushes| - 1 > 0 && (p.active || p.watcher.Reading?)
    case PullClip(_, _) =>
      if p.pushes == [] then p.watcher.Comparing? else p.active || p.watcher.Reading? || p.watcher.Comparing?
    case PullLast(_, k) => k == |p.pulls| - 1 > 0 && (p.active || p.watcher.Reading? || p.watcher.Comparing?)
    case EnableLast(_, cur) =>
      p.pulls == [] && (p.watcher.Comparing? || (Unseen(p, act) && (p.active || p.watcher.Reading?)))
    case EnableOn(_) => !p.active && (p.watcher.Comparing? || (Unseen(p, act) && !p.watcher.Reading?))
    case _ => false
  }

  /** An enable is about to pass over a text: one other than it read, or than was seen last. */
  predicate Unseen(p: Peer, act: Action) {
    (act.EnableLast? && New(Text(p), act.cur)) || (act.EnableOn? && New(Text(p), Last(p)))
  }

  /** The same step in the same situation, with other texts. */
  predicate Alike(p: Peer, act: Action, q: Peer, other: Action) {
    q.capable == p.capable && q.active == p.active && |q.pushes| == |p.pushes| && |q.pulls| == |p.pulls| &&
    SamePlace(p.watcher, q.watcher) && SameKind(act, other) && Unseen(q, other) == Unseen(p, act)
  }

  predicate SamePlace(v: Watcher, w: Watcher) {
    match v
    case Idle => w.Idle?
    case Reading => w.Reading?
    case Comparing(_) => w.Comparing?
    case Sending(_) => w.Sending?
  }

  predicate SameKind(a: Action, b: Action) {
    a.d == b.d &&
    match a
    case Copy(_, _) => b.Copy?
    case Disable(_) => b.Disable?
    case Watch(_) => b.Watch?
    case Admit(_, _, _) => b.Admit?
    case PushLast(_, _) => b.PushLast?
    case PushClip(_, k) => b.PushClip? && b.k == k
    case Answer(_, _, _) => b.Answer?
    case PullClip(_, _) => b.PullClip?
    case PullLast(_, k) => b.PullLast? && b.k == k
    case EnableRead(_) => b.EnableRead?
    case EnableLast(_, _) => b.EnableLast?
    case EnableOn(_) => b.EnableOn?
  }

  lemma RaisesDisturbs(p: Peer, act: Action)
    requires Raises(p, act)
    ensures Disturbs(p, act)
  {
  }

  lemma AlikeDisturbs(p: Peer, act: Action, q: Peer, other: Action)
    requires Alike(p, act, q, other) && Disturbs(q, other)
    ensures Disturbs(p, act)
  {
  }

  /** The situation of `p` with texts of our own: the clipboard and the newest push hold `text`, the
      last-seen text and the newest pull are `last`, older pushes and pulls hold "a", and so does
      everything that is still to come. */
  function Recast(p: Peer, clip: string, push: string, last: string, pull: string, cur: string): Peer {
    var w :=
      match p.watcher
      case Comparing(_) => Comparing(cur)
      case w => w;
    var pushes := seq(|p.pushes|, i => if i == |p.pushes| - 1 then push else "a");
    var pulls := seq(|p.pulls|, i => if i == |p.pulls| - 1 then pull else "a");
    Peer(true, Some(clip), last, p.active, w, multiset{"a"}, pushes, multiset{"a"}, pulls, multiset{"a"}, 1)
  }

  /** Texts with which a disturbing step makes the device owe more. */
  function Worst(p: Peer, act: Action): (Peer, Action) {
    match act
    case Watch(d) =>
      (if p.watcher.Reading? then Recast(p, "a", "b", "b", "b", "b") else Recast(p, "b", "b", "b", "a", "a"), Watch(d))
    case PushLast(d, _) => (Recast(p, "b", "b", "b", "b", "b"), PushLast(d, "a"))
    case PullClip(d, _) => (Recast(p, "b", "b", "b", "b", "b"), PullClip(d, "a"))
    case EnableLast(d, _) =>
      var text := if Unseen(p, act) then "b" else "";
      (Recast(p, text, text, "b", "b", "b"), EnableLast(d, "a"))
    case EnableOn(d) =>
      var last := if Unseen(p, act) then "a" else "b";
      (Recast(p, "b", "b", last, last, "a"), EnableOn(d))
    case _ => (Recast(p, "b", "b", "b", "b", "b"), act)
  }

  lemma RecastReads(p: Peer, clip: string, push: string, last: string, pull: string, cur: string)
    ensures var q := Recast(p, clip, push, last, pull, cur);
            Text(q) == (if p.pushes == [] then clip else push) && Last(q) == (if p.pulls == [] then last else pull) &&
            |q.pushes| == |p.pushes| && |q.pulls| == |p.pulls| && SamePlace(p.watcher, q.watcher)
  {
  }

  lemma WorstWatch(p: Peer, act: Action)
    requires Enabled(p, act) && Disturbs(p, act) && act.Watch?
    ensures var (q, other) := Worst(p, act); Alike(p, act, q, other) && Enabled(q, other) && Raises(q, other)
  {
    RecastReads(p, "a", "b", "b", "b", "b");
    RecastReads(p, "b", "b", "b", "a", "a");
  }

  lemma WorstWrite(p: Peer, act: Action)
    requires Enabled(p, act) && Disturbs(p, act)
    requires act.PushLast? || act.PushClip? || act.PullClip? || act.PullLast?
    ensures var (q, other) := Worst(p, act); Alike(p, act, q, other) && Enabled(q, other) && Raises(q, other)
  {
    var q := Recast(p, "b", "b", "b", "b", "b");
    RecastReads(p, "b", "b", "b", "b", "b");
    assert Text(q) == Last(q) == "b";
    assert p.active || p.watcher.Reading? ==> SaysMore(q, "a", "b");
    assert p.active || p.watcher.Reading? || p.watcher.Comparing? ==> SaysMore(q, "b", "a");
    assert p.watcher.Comparing? ==> SaysMore(q, "a", "a");
  }

  lemma WorstEnable(p: Peer, act: Action)
    requires Enabled(p, act) && Disturbs(p, act) && (act.EnableLast? || act.EnableOn?)
    ensures var (q, other) := Worst(p, act); Alike(p, act, q, other) && Enabled(q, other) && Raises(q, other)
  {
    RecastReads(p, "b", "b", "b", "b", "b");
    RecastReads(p, "", "", "b", "b", "b");
    RecastReads(p, "b", "b", "a", "a", "a");
    RecastReads(p, "b", "b", "b", "b", "a");
  }

  ghost predicate CanRaise(p: Peer, act: Action) {
    exists q, other :: Alike(p, act, q, other) && Enabled(q, other) && Rise(q, other) > 0
  }

  /** The guard is exact: in a given situation a step makes the device owe more, for some texts, if and
      only if it disturbs. */
  lemma DisturbsExactly(p: Peer, act: Action)
    requires Enabled(p, act)
    ensures Disturbs(p, act) <==> CanRaise(p, act)
  {
    if Disturbs(p, act) {
      if act.Watch? {
        WorstWatch(p, act);
      } else if act.EnableLast? || act.EnableOn? {
        WorstEnable(p, act);
      } else {
        WorstWrite(p, act);
      }
      var (q, other) := Worst(p, act);
      RaisesExactly(q, other);
    }
    forall q, other | Alike(p, act, q, other) && Enabled(q, other) && Rise(q, other) > 0
      ensures Disturbs(p, act)
    {
      RaisesExactly(q, other);
      RaisesDisturbs(q, other);
      AlikeDisturbs(p, act, q, other);
    }
  }

  // ---------------------------------------------------------------- the account of every device

  /** Where a device stands: what it has sent and owes beyond its user's copies. */
  function Balance(s: System, i: nat): int
    requires WellFormed(s) && i < |s.peers|
  {
    s.broadcasts[i] + Owed(s.peers[i]) - s.copies[i]
  }

  lemma BalanceMoves(s: System, act: Action, i: nat)
    requires WellFormed(s) && Possible(s, act) && i < |s.peers|
    ensures Balance(Next(s, act), i) == Balance(s, i) + if i == act.d then Rise(s.peers[i], act) else 0
  {
  }

  /** If every device were left alone now, none would have broadcast more often than its user copied. */
  predicate Accounted(s: System)
    requires WellFormed(s)
  {
    forall i :: 0 <= i < |s.peers| ==> Balance(s, i) <= 0
  }

  lemma AccountedNext(s: System, act: Action)
    requires WellFormed(s) && Possible(s, act) && Accounted(s)
    ensures Accounted(Next(s, act)) <==> Balance(s, act.d) + Rise(s.peers[act.d], act) <= 0
  {
    var t := Next(s, act);
    BalanceMoves(s, act, act.d);
    forall i | 0 <= i < |s.peers| && i != act.d
      ensures Balance(t, i) == Balance(s, i)
    {
      BalanceMoves(s, act, i);
    }
  }

  /** Step by step, given the texts: a step that raises nothing keeps every device accounted for, and
      for a device that has no copy to spare no other step does. */
  lemma SpentStepExactly(s: System, act: Action)
    requires WellFormed(s) && Possible(s, act) && Accounted(s)
    ensures !Raises(s.peers[act.d], act) ==> Accounted(Next(s, act))
    ensures Balance(s, act.d) == 0 ==> (Accounted(Next(s, act)) <==> !Raises(s.peers[act.d], act))
  {
    AccountedNext(s, act);
    RaisesExactly(s.peers[act.d], act);
    assert Balance(s, act.d) <= 0;
  }

  /** Another system, in which the same step meets the same situation with other texts. */
  predicate Elsewhere(s: System, act: Action, u: System, other: Action) {
    WellFormed(u) && |u.peers| == |s.peers| && Possible(u, other) &&
    act.d < |s.peers| && Alike(s.peers[act.d], act, u.peers[act.d], other)
  }

  /** The step keeps every device accounted for, whatever the texts. */
  ghost predicate AlwaysSafe(s: System, act: Action) {
    forall u, other :: Elsewhere(s, act, u, other) && Accounted(u) ==> Accounted(Next(u, other))
  }

  /** Step by step, whatever the texts: a step keeps every device accounted for in all systems in
      which it meets the same situation, if and only if it does not disturb. */
  lemma AccountedStepExactly(s: System, act: Action)
    requires WellFormed(s) && Possible(s, act)
    ensures AlwaysSafe(s, act) <==> !Disturbs(s.peers[act.d], act)
  {
    if Disturbs(s.peers[act.d], act) {
      var u, other := WorstSystem(s, act);
      assert Elsewhere(s, act, u, other);
    } else {
      forall u, other | Elsewhere(s, act, u, other) && Accounted(u)
        ensures Accounted(Next(u, other))
      {
        if Raises(u.peers[other.d], other) {
          RaisesDisturbs(u.peers[other.d], other);
          AlikeDisturbs(s.peers[act.d], act, u.peers[other.d], other);
        }
        SpentStepExactly(u, other);
      }
    }
  }

  /** A system with no copy to spare in which a disturbing step leaves its device unaccounted for. */
  lemma WorstSystem(s: System, act: Action) returns (u: System, other: Action)
    requires WellFormed(s) && Possible(s, act) && Disturbs(s.peers[act.d], act)
    ensures Elsewhere(s, act, u, other) && Accounted(u) && !Accounted(Next(u, other))
  {
    var d, p := act.d, s.peers[act.d];
    DisturbsExactly(p, act);
    var q, b :| Alike(p, act, q, b) && Enabled(q, b) && Rise(q, b) > 0;
    var peers := s.peers[d := q];
    u := System(peers, seq(|peers|, i requires 0 <= i < |peers| => s.broadcasts[i] + Owed(peers[i])), s.broadcasts, s.sent);
    other := b;
    forall i | 0 <= i < |peers|
      ensures Balance(u, i) == 0
    {
    }
    assert u.peers[d] == q;
    AccountedNext(u, other);
  }

  // ---------------------------------------------------------------- whole runs

  /** The step leaves its device owing more than its user has copied. */
  predicate Tears(s: System, act: Action)
    requires WellFormed(s) && Possible(s, act)
  {
    Balance(Next(s, act), act.d) > 0
  }

  predicate NeverTears(s: System, acts: seq<Action>)
    requires WellFormed(s)
    decreases |acts|
  {
    acts == [] ||
    (Possible(s, acts[0]) ==> !Tears(s, acts[0]) && NeverTears(Next(s, acts[0]), acts[1..]))
  }

  lemma {:induction false} AccountedThroughout(s: System, acts: seq<Action>)
    requires WellFormed(s) && Accounted(s) && RunFrom(s, acts).Some? && NeverTears(s, acts)
    ensures Accounted(RunFrom(s, acts).value)
    decreases |acts|
  {
    if acts != [] {
      AccountedNext(s, acts[0]);
      BalanceMoves(s, acts[0], acts[0].d);
      AccountedThroughout(Next(s, acts[0]), acts[1..]);
    }
  }

  lemma {:induction false} FreshIsAccounted(s: System)
    requires Fresh(s)
    ensures Accounted(s)
  {
    forall i | 0 <= i < |s.peers|
      ensures Balance(s, i) == 0
    {
      assert s.peers[i].watcher.Idle? && !s.peers[i].active;
    }
  }

  predicate Bounded(s: System)
    requires WellFormed(s)
  {
    (forall i :: 0 <= i < |s.peers| ==> s.broadcasts[i] <= s.copies[i]) &&
    Clipboard.Total(s.broadcasts) <= Clipboard.Total(s.copies)
  }

  lemma AccountedIsBounded(s: System)
    requires WellFormed(s) && Accounted(s)
    ensures Bounded(s)
  {
    forall i | 0 <= i < |s.peers|
      ensures s.broadcasts[i] <= s.copies[i]
    {
      assert Balance(s, i) <= 0;
    }
    Clipboard.TotalMonotone(s.broadcasts, s.copies);
  }

  /** No echo, region by region: in every run without a tearing step, each of any number of devices
      broadcasts at most as often as its own user copies. */
  lemma UntornGossipDoesNotEcho(s: System, acts: seq<Action>)
    requires Fresh(s) && RunFrom(s, acts).Some? && NeverTears(s, acts)
    ensures Bounded(RunFrom(s, acts).value)
  {
    FreshIsAccounted(s);
    AccountedThroughout(s, acts);
    AccountedIsBounded(RunFrom(s, acts).value);
  }

  predicate NeverDisturbs(s: System, acts: seq<Action>)
    requires WellFormed(s)
    decreases |acts|
  {
    acts == [] ||
    (Possible(s, acts[0]) ==> !Disturbs(s.peers[acts[0].d], acts[0]) && NeverDisturbs(Next(s, acts[0]), acts[1..]))
  }

  lemma {:induction false} UndisturbedNeverTears(s: System, acts: seq<Action>)
    requires WellFormed(s) && Accounted(s) && RunFrom(s, acts).Some? && NeverDisturbs(s, acts)
    ensures NeverTears(s, acts)
    decreases |acts|
  {
    if acts != [] {
      var p, t := s.peers[acts[0].d], Next(s, acts[0]);
      if Raises(p, acts[0]) {
        RaisesDisturbs(p, acts[0]);
      }
      SpentStepExactly(s, acts[0]);
      assert Balance(t, acts[0].d) <= 0;
      UndisturbedNeverTears(t, acts[1..]);
    }
  }

  /** In particular in every run in which no step disturbs: a condition on places and not on texts. */
  lemma UndisturbedGossipDoesNotEcho(s: System, acts: seq<Action>)
    requires Fresh(s) && RunFrom(s, acts).Some? && NeverDisturbs(s, acts)
    ensures Bounded(RunFrom(s, acts).value)
  {
    FreshIsAccounted(s);
    UndisturbedNeverTears(s, acts);
    UntornGossipDoesNotEcho(s, acts);
  }

  // ---------------------------------------------------------------- what a tear leads to

  /** How a device finishes what it has begun: its half-done pushes write, then its half-done pulls,
      oldest first, and then its watcher runs. */
  function NextToFinish(p: Peer, d: nat): Action {
    if p.pushes != [] then PushClip(d, 0) else if p.pulls != [] then PullLast(d, 0) else Watch(d)
  }

  /** The device `d` just finishes: nobody copies, sends, pulls or switches anything. */
  predicate JustFinishing(s: System, acts: seq<Action>, d: nat)
    requires WellFormed(s)
    decreases |acts|
  {
    acts == [] ||
    (d < |s.peers| && acts[0] == NextToFinish(s.peers[d], d) &&
     (Possible(s, acts[0]) ==> JustFinishing(Next(s, acts[0]), acts[1..], d)))
  }

  lemma {:induction false} FinishingNeverDisturbs(s: System, acts: seq<Action>, d: nat)
    requires WellFormed(s) && JustFinishing(s, acts, d) && RunFrom(s, acts).Some?
    ensures NeverDisturbs(s, acts)
    decreases |acts|
  {
    if acts != [] {
      FinishingNeverDisturbs(Next(s, acts[0]), acts[1..], d);
    }
  }

  /** Steps the watcher takes, with nothing half written, until it has nothing more to say. */
  function StepsLeft(p: Peer): nat {
    if !p.capable then 0
    else
      match p.watcher
      case Idle => if p.active && New(TextIn(p), p.last) then 4 else 0
      case Reading => if New(TextIn(p), p.last) then 3 else 0
      case Comparing(cur) =>
        (if cur != p.last then 2 else 0) + (if p.active && New(TextIn(p), cur) then 5 else 0)
      case Sending(_) => 1 + (if p.active && New(TextIn(p), p.last) then 4 else 0)
  }

  function Work(p: Peer): nat {
    if p.capable then |p.pushes| + |p.pulls| else 0
  }

  /** Finishing changes nothing about what is sent and owed. */
  lemma FinishingStep(p: Peer, d: nat)
    requires Work(p) > 0 || StepsLeft(p) > 0
    ensures var act := NextToFinish(p, d);
            Enabled(p, act) && Rise(p, act) == 0 &&
            var q := Step(p, act);
            if Work(p) > 0 then Work(q) < Work(p) else Work(q) == 0 && StepsLeft(q) < StepsLeft(p)
  {
    var act := NextToFinish(p, d);
    if act.Watch? {
      WatchFinishes(p, d);
    } else if act.PushClip? {
      PushRaises(p, act);
    } else {
      PullRaises(p, act);
    }
  }

  lemma WatchFinishes(p: Peer, d: nat)
    requires Work(p) == 0 && StepsLeft(p) > 0
    ensures Rise(p, Watch(d)) == 0 && StepsLeft(Watched(p)) < StepsLeft(p)
  {
  }

  /** What a device owes is what it broadcasts if it just finishes. */
  lemma {:induction false} OwedIsBroadcast(s: System, d: nat) returns (acts: seq<Action>)
    requires WellFormed(s) && d < |s.peers|
    ensures JustFinishing(s, acts, d) && RunFrom(s, acts).Some?
    ensures var t := RunFrom(s, acts).value;
            t.copies == s.copies && t.broadcasts[d] == s.broadcasts[d] + Owed(s.peers[d]) && Owed(t.peers[d]) == 0
    decreases Work(s.peers[d]), StepsLeft(s.peers[d])
  {
    var p := s.peers[d];
    if Work(p) == 0 && StepsLeft(p) == 0 {
      acts := [];
    } else {
      var act := NextToFinish(p, d);
      FinishingStep(p, d);
      BalanceMoves(s, act, d);
      var rest := OwedIsBroadcast(Next(s, act), d);
      acts := [act] + rest;
      assert acts[1..] == rest;
    }
  }

  /** The run led to a state in which device `d` has broadcast more often than its user copied. */
  predicate Exceeds(r: Option<System>, d: nat) {
    r.Some? && WellFormed(r.value) && d < |r.value.peers| && r.value.broadcasts[d] > r.value.copies[d]
  }

  ghost predicate CanExceed(s: System, d: nat)
    requires WellFormed(s)
  {
    exists acts :: JustFinishing(s, acts, d) && Exceeds(RunFrom(s, acts), d)
  }

  /** A tear is an echo to come, and nothing else is: after a possible step, its device exceeds its
      user's copies by just finishing exactly if the step tore. */
  lemma TearsAreEchoes(s: System, act: Action)
    requires WellFormed(s) && Possible(s, act) && Accounted(s)
    ensures Tears(s, act) <==> CanExceed(Next(s, act), act.d)
  {
    var u := Next(s, act);
    if Tears(s, act) {
      var acts := OwedIsBroadcast(u, act.d);
      assert Exceeds(RunFrom(u, acts), act.d);
    } else {
      AccountedNext(s, act);
      BalanceMoves(s, act, act.d);
      forall acts | JustFinishing(u, acts, act.d)
        ensures !Exceeds(RunFrom(u, acts), act.d)
      {
        if RunFrom(u, acts).Some? {
          FinishingNeverDisturbs(u, acts, act.d);
          UndisturbedNeverTears(u, acts);
          AccountedThroughout(u, acts);
          assert Balance(RunFrom(u, acts).value, act.d) <= 0;
        }
      }
    }
  }

  // ---------------------------------------------------------------- uninterrupted operations

  function View(p: Peer): Clipboard.Device {
    Clipboard.Device(p.capable, p.clip, p.last, p.active)
  }

  /** A whole turn of the watcher, up to its next sleep. */
  function Turn(p: Peer): Peer {
    var a := Watched(p);
    if a.watcher.Idle? then a
    else
      var b := Watched(a);
      if b.watcher.Idle? then b
      else
        var c := Watched(b);
        if c.watcher.Idle? then c else Watched(c)
  }

  /** Nobody but the watcher is at work. */
  predicate OnlyWatching(p: Peer) {
    p == Quiet(p.capable, p.clip, p.last, p.active).(watcher := p.watcher)
  }

  /** Run without interruption, the regions of each operation add up to the one step that the coarse
      model takes for it. */
  lemma WholeTick(p: Peer)
    requires OnlyWatching(p) && p.watcher.Idle? && p.capable
    ensures View(Turn(p)) == Clipboard.Ticked(View(p)) && Turn(p) == p.(last := Turn(p).last)
  {
  }

  lemma WholePush(p: Peer, d: nat, from: nat, content: string)
    requires OnlyWatching(p)
    ensures var admitted := Step(p, Admit(d, from, content));
            if !p.active || !p.capable then admitted == p && View(p) == Clipboard.Pushed(View(p), content)
            else
              var q := Step(Step(admitted, PushLast(d, content)), PushClip(d, 0));
              View(q) == Clipboard.Pushed(View(p), content) && OnlyWatching(q) && q.watcher == p.watcher
  {
    assert Without([content], 0) == [];
  }

  lemma WholePull(p: Peer, d: nat, from: nat, content: string)
    requires OnlyWatching(p) && p.capable
    ensures var q := Step(Step(Step(p, Answer(d, from, content)), PullClip(d, content)), PullLast(d, 0));
            View(q) == Clipboard.Pulled(View(p), content) && OnlyWatching(q) && q.watcher == p.watcher
  {
    assert Without([content], 0) == [];
  }

  lemma WholeEnable(p: Peer, d: nat)
    requires OnlyWatching(p)
    ensures var read := Step(p, EnableRead(d));
            var seen := if p.capable && p.clip.Some? then Step(read, EnableLast(d, p.clip.value)) else read;
            var q := Step(seen, EnableOn(d));
            View(q) == Clipboard.SyncEnabled(View(p)) && OnlyWatching(q) && q.watcher == p.watcher
  {
  }

  // ---------------------------------------------------------------- sync off

  /** Sync is off, and nothing on its way will broadcast or turn it on. */
  predicate Off(p: Peer) {
    !p.active && p.watcher.Idle? && p.seen == multiset{} && p.arming == 0
  }

  lemma {:induction false} OffStaysOff(s: System, acts: seq<Action>, d: nat)
    requires WellFormed(s) && d < |s.peers| && Off(s.peers[d]) && RunFrom(s, acts).Some?
    requires forall n :: 0 <= n < |acts| ==> acts[n] != EnableRead(d)
    ensures RunFrom(s, acts).value.broadcasts[d] == s.broadcasts[d] && Off(RunFrom(s, acts).value.peers[d])
    decreases |acts|
  {
    if acts != [] {
      OffStaysOff(Next(s, acts[0]), acts[1..], d);
    }
  }

  /** A device with nothing going on whose sync is switched off, and not on again, broadcasts nothing,
      region by region. */
  lemma OffIsSilent(s: System, acts: seq<Action>, d: nat)
    requires WellFormed(s) && d < |s.peers| && OnlyWatching(s.peers[d]) && s.peers[d].watcher.Idle?
    requires acts != [] && acts[0] == Disable(d) && RunFrom(s, acts).Some?
    requires forall n :: 0 <= n < |acts| ==> acts[n] != EnableRead(d)
    ensures RunFrom(s, acts).value.broadcasts[d] == s.broadcasts[d] && !RunFrom(s, acts).value.peers[d].active
  {
    OffStaysOff(Next(s, acts[0]), acts[1..], d);
  }
}

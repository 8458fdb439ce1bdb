/** Clipboard gossip between devices, and why it does not echo. */
module Clipboard {
  import opened Base

  // ---------------------------------------------------------------- one device

  /** `clip` is None while there is no text to read; the clipboard returns what was last put in it.
      `capable` says whether the platform has a clipboard at all. */
  datatype Device = Device(capable: bool, clip: Option<string>, last: string, active: bool)

  /** What the watcher would broadcast if it ticked now. */
  function Due(d: Device): Option<string> {
    if d.capable && d.active && d.clip.Some? && d.clip.value != [] && d.clip.value != d.last then d.clip else None
  }

  function Ticked(d: Device): Device {
    if Due(d).Some? then d.(last := Due(d).value) else d
  }

  function Copied(d: Device, content: string): Device {
    d.(clip := Some(content))
  }

  function Pushed(d: Device, content: string): Device {
    if d.active && d.capable then d.(last := content, clip := Some(content)) else d
  }

  function SyncEnabled(d: Device): Device {
    d.(active := true, last := if d.capable && d.clip.Some? then d.clip.value else d.last)
  }

  function Pulled(d: Device, content: string): Device {
    if d.capable then d.(last := content, clip := Some(content)) else d
  }

  /** What a peer that asks is told. */
  function TextOf(d: Device): string {
    if d.capable && d.clip.Some? then d.clip.value else ""
  }

  class ClipboardSync {
    const capable: bool
    var clip: Option<string>
    var last: string
    var active: bool
    /** Peers a pull of ours is waiting for. */
    var pending: set<Node>

    constructor (capable: bool, clip: Option<string>)
      ensures View() == Device(capable, clip, "", false) && pending == {}
    {
      this.capable := capable;
      this.clip := clip;
      last, active, pending := "", false, {};
    }

    function View(): Device
      reads this
    {
      Device(capable, clip, last, active)
    }

    /** One turn of the watcher thread. */
    method WatcherTick() returns (broadcast: Option<string>)
      modifies this`last
      ensures View() == Ticked(old(View()))
      ensures broadcast == Due(old(View()))
      ensures Due(View()).None?
    {
      broadcast := None;
      if !capable || !active || clip.None? {
        return;
      }
      var cur := clip.value;
      if cur == [] {
        return;
      }
      if last != cur {
        last := cur;
        broadcast := Some(cur);
      }
    }

    /** `ClipboardHandler::handle` on a push: ignored with sync off; otherwise the text is there
        afterwards, and whatever the device had to broadcast before, the watcher now stays quiet. */
    method HandlePush(content: string)
      modifies this`last, this`clip
      ensures View() == Pushed(old(View()), content)
      ensures !active ==> View() == old(View())
      ensures active ==> Due(View()).None? && (capable ==> clip == Some(content))
    {
      if active {
        if capable {
          last := content;
          clip := Some(content);
        }
      }
    }

    /** ... on a peer's pull: the reply, and the peer it goes to. */
    method HandleRequest(from: Node) returns (reply: Option<string>)
      ensures reply.Some? <==> from != []
      ensures reply.Some? ==> reply.value == TextOf(View())
    {
      reply := None;
      if from != [] {
        reply := Some(if capable && clip.Some? then clip.value else "");
      }
    }

    /** ... on the reply to a pull of ours: handed to the waiting caller, once. */
    method HandleResponse(from: Node, content: string) returns (handed: Option<string>)
      modifies this`pending
      ensures pending == old(pending) - {from}
      ensures handed == if from in old(pending) then Some(content) else None
    {
      handed := None;
      if from in pending {
        pending := pending - {from};
        handed := Some(content);
      }
    }

    /** `enable_clipboard_sync`: what is in the clipboard counts as seen, so the watcher stays quiet
        until the next copy. */
    method EnableSync()
      modifies this`last, this`active
      ensures View() == SyncEnabled(old(View()))
      ensures active && clip == old(clip) && Due(View()).None?
    {
      if capable {
        if clip.Some? {
          last := clip.value;
        }
      }
      active := true;
    }

    /** The tail of `get_clipboard`: the pulled text is there and counts as seen. */
    method FinishPull(content: string)
      modifies this`last, this`clip
      ensures View() == Pulled(old(View()), content)
      ensures Due(View()).None? && (capable ==> clip == Some(content)) && active == old(active)
    {
      if capable {
        clip := Some(content);
        last := content;
      }
    }

    /** `get_clipboard` against a device that answers: afterwards this device holds the other's text,
        its watcher stays quiet, the other is unchanged, and no pull is left waiting. */
    method PullFrom(theirs: ClipboardSync, me: Node, them: Node) returns (text: Option<string>)
      requires theirs != this
      modifies this`pending, this`clip, this`last
      ensures text.Some? <==> capable && me != []
      ensures text.Some? ==> text.value == TextOf(theirs.View()) && clip == text && Due(View()).None?
      ensures text.None? ==> View() == old(View())
      ensures pending == if capable then old(pending) - {them} else old(pending)
    {
      text := None;
      if !capable {
        return;
      }
      pending := pending + {them};
      var reply := theirs.HandleRequest(me);
      if reply.Some? {
        text := HandleResponse(them, reply.value);
      }
      pending := pending - {them};
      if text.Some? {
        FinishPull(text.value);
      }
    }
  }

  // ---------------------------------------------------------------- many devices

  datatype System = System(devices: seq<Device>, copies: seq<nat>, broadcasts: seq<nat>, sent: set<string>)

  datatype Action =
    | Copy(d: nat, content: string)         // the user copies something
    | Tick(d: nat)
    | Receive(d: nat, content: string)      // any push ever sent, any number of times, at any time
    | Enable(d: nat)
    | Disable(d: nat)
    | Pull(d: nat, content: string)         // whatever the peer answered

  predicate WellFormed(s: System) {
    |s.devices| == |s.copies| == |s.broadcasts|
  }

  predicate Possible(s: System, act: Action)
    requires WellFormed(s)
  {
    act.d < |s.devices| && (act.Receive? ==> act.content in s.sent)
  }

  function Next(s: System, act: Action): (t: System)
    requires WellFormed(s) && Possible(s, act)
    ensures WellFormed(t)
  {
    var d := s.devices[act.d];
    match act
    case Copy(i, content) => s.(devices := s.devices[i := Copied(d, content)], copies := s.copies[i := s.copies[i] + 1])
    case Tick(i) =>
      if Due(d).None? then s
      else s.(devices := s.devices[i := Ticked(d)],
              broadcasts := s.broadcasts[i := s.broadcasts[i] + 1],
              sent := s.sent + {Due(d).value})
    case Receive(i, content) => s.(devices := s.devices[i := Pushed(d, content)])
    case Enable(i) => s.(devices := s.devices[i := SyncEnabled(d)])
    case Disable(i) => s.(devices := s.devices[i := d.(active := false)])
    case Pull(i, content) => s.(devices := s.devices[i := Pulled(d, content)])
  }

  function RunFrom(s: System, acts: seq<Action>): (r: Option<System>)
    requires WellFormed(s)
    ensures r.Some? ==> WellFormed(r.value)
    decreases |acts|
  {
    if acts == [] then Some(s)
    else if !Possible(s, acts[0]) then None
    else RunFrom(Next(s, acts[0]), acts[1..])
  }

  /** Nothing copied or broadcast yet, sync off everywhere; the clipboards may hold anything. */
  predicate Fresh(s: System) {
    WellFormed(s) && s.sent == {} &&
    forall i :: 0 <= i < |s.devices| ==>
      s.copies[i] == s.broadcasts[i] == 0 && !s.devices[i].active && s.devices[i].last == []
  }

  /** On every device, broadcasts made and due do not exceed the user's copies. */
  predicate Accounted(s: System)
    requires WellFormed(s)
  {
    forall i :: 0 <= i < |s.devices| ==> s.broadcasts[i] + (if Due(s.devices[i]).Some? then 1 else 0) <= s.copies[i]
  }

  lemma {:induction false} AccountedRun(s: System, acts: seq<Action>)
    requires WellFormed(s) && Accounted(s) && RunFrom(s, acts).Some?
    ensures Accounted(RunFrom(s, acts).value)
    decreases |acts|
  {
    if acts != [] {
      AccountedRun(Next(s, acts[0]), acts[1..]);
    }
  }

  function Total(counts: seq<nat>): nat {
    if counts == [] then 0 else Total(counts[..|counts| - 1]) + counts[|counts| - 1]
  }

  lemma {:induction false} TotalMonotone(a: seq<nat>, b: seq<nat>)
    requires |a| == |b| && forall i :: 0 <= i < |a| ==> a[i] <= b[i]
    ensures Total(a) <= Total(b)
    decreases |a|
  {
    if a != [] {
      TotalMonotone(a[..|a| - 1], b[..|b| - 1]);
    }
  }

  /** No echo: in any run of any number of devices, however pushes are lost, delayed, repeated or
      reordered and however often sync is switched, each device broadcasts at most as often as its
      own user copies; so broadcasts never exceed copies altogether. */
  lemma GossipDoesNotEcho(s: System, acts: seq<Action>)
    requires Fresh(s) && RunFrom(s, acts).Some?
    ensures var t := RunFrom(s, acts).value;
            (forall i :: 0 <= i < |t.devices| ==> t.broadcasts[i] <= t.copies[i]) &&
            Total(t.broadcasts) <= Total(t.copies)
  {
    AccountedRun(s, acts);
    var t := RunFrom(s, acts).value;
    TotalMonotone(t.broadcasts, t.copies);
  }

  // ---------------------------------------------------------------- what it is for

  /** A copy spreads: with sync on at two devices, a new text copied at one is broadcast once by its next
      tick, and a device that receives the push has it and stays quiet. */
  lemma CopySpreads(s: System, d: nat, e: nat, content: string)
    requires WellFormed(s) && d < |s.devices| && e < |s.devices| && d != e
    requires s.devices[d].capable && s.devices[d].active && s.devices[e].capable && s.devices[e].active
    requires content != "" && content != s.devices[d].last
    ensures var r := RunFrom(s, [Copy(d, content), Tick(d), Receive(e, content)]);
            r.Some? && |r.value.devices| == |s.devices| &&
            r.value.devices[d].clip == r.value.devices[e].clip == Some(content) &&
            Due(r.value.devices[d]).None? && Due(r.value.devices[e]).None? &&
            r.value.copies == s.copies[d := s.copies[d] + 1] && r.value.broadcasts == s.broadcasts[d := s.broadcasts[d] + 1]
  {
    var acts := [Copy(d, content), Tick(d), Receive(e, content)];
    var a := Next(s, acts[0]);
    assert Due(a.devices[d]) == Some(content);
    var b := Next(a, acts[1]);
    var c := Next(b, acts[2]);
    assert acts[1..][1..] == [acts[2]] && [acts[2]][1..] == [];
    assert RunFrom(b, acts[1..][1..]) == Some(c);
    assert RunFrom(a, acts[1..]) == Some(c);
  }

  /** A device whose sync is switched off, and stays off, broadcasts nothing and takes no push. */
  lemma {:induction false} OffIsSilent(s: System, acts: seq<Action>, d: nat)
    requires WellFormed(s) && d < |s.devices| && acts != [] && acts[0] == Disable(d) && RunFrom(s, acts).Some?
    requires forall n :: 0 <= n < |acts| ==> acts[n] != Enable(d)
    ensures var t := RunFrom(s, acts).value;
            |t.devices| == |s.devices| && t.broadcasts[d] == s.broadcasts[d] && !t.devices[d].active
  {
    OffStaysOff(Next(s, acts[0]), acts[1..], d);
  }

  lemma {:induction false} OffStaysOff(s: System, acts: seq<Action>, d: nat)
    requires WellFormed(s) && d < |s.devices| && !s.devices[d].active && RunFrom(s, acts).Some?
    requires forall n :: 0 <= n < |acts| ==> acts[n] != Enable(d)
    ensures var t := RunFrom(s, acts).value;
            |t.devices| == |s.devices| && t.broadcasts[d] == s.broadcasts[d] && !t.devices[d].active
    ensures (forall n :: 0 <= n < |acts| ==> acts[n].d != d || acts[n].Receive?) ==>
              RunFrom(s, acts).value.devices[d] == s.devices[d]
    decreases |acts|
  {
    if acts != [] {
      OffStaysOff(Next(s, acts[0]), acts[1..], d);
    }
  }
}

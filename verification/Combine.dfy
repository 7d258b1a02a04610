/**
 A record combined from several observable inputs. It is subscribed to its inputs only while someone listens, and
 catches up when the first listener comes back. Listeners may listen, stop, throw, and set inputs while they are told.
 */
module Combine {
  import opened Wrappers
  import opened Observable

  // ------------------------------------------------------------------ what listeners do

  /** One thing a program or a listener does. Setting an input makes its subscribers' calls: in the i-th of them the
      listeners of the record run the scripts of `turns[i]`, one each. An error is passed on unless it is `caught`.
      What a listener does in the call that listening makes are the next actions of the script that began it. */
  datatype Action<V> =
    | SetInput(input: nat, value: V, caught: bool, turns: seq<Turn<V>>)
    | Listen(cb: nat)
    | Stop(cb: nat)
    | Fail

  datatype Script<V> = Script(actions: seq<Action<V>>)

  datatype Turn<V> = Turn(scripts: seq<Script<V>>)

  function Size<V>(a: Action<V>): nat
    decreases a
  {
    match a case SetInput(_, _, _, turns) => 1 + TurnsSize(turns) case _ => 1
  }

  function ActionsSize<V>(s: seq<Action<V>>): nat
    decreases s
  {
    if s == [] then 0 else Size(s[0]) + ActionsSize(s[1..])
  }

  function ScriptsSize<V>(s: seq<Script<V>>): nat
    decreases s
  {
    if s == [] then 0 else 1 + ActionsSize(s[0].actions) + ScriptsSize(s[1..])
  }

  function TurnsSize<V>(s: seq<Turn<V>>): nat
    decreases s
  {
    if s == [] then 0 else 1 + ScriptsSize(s[0].scripts) + TurnsSize(s[1..])
  }

  /** What the next one does; who has no script does nothing. */
  function FirstScript<V>(s: seq<Script<V>>): seq<Action<V>>
  {
    if s == [] then [] else s[0].actions
  }

  function FirstTurn<V>(s: seq<Turn<V>>): seq<Script<V>>
  {
    if s == [] then [] else s[0].scripts
  }

  function Others<T>(s: seq<T>): seq<T>
  {
    if s == [] then [] else s[1..]
  }

  // ------------------------------------------------------------------ the worlds

  /** An input and its subscribers; these are the subscriptions of the record, by number. */
  datatype Input<V> = Input(value: V, list: Counters)

  /** A listener's call. */
  datatype Call<V> = Call(cb: nat, record: seq<V>)

  /** The inputs, the list and value behind the record, the working record and the one last published, the
      subscription that counts, and what has been published and delivered so far. */
  datatype World<V> = World(inputs: seq<Input<V>>, data: Counters, value: seq<V>, current: seq<V>, published: seq<V>,
                            sub: Option<nat>, next: nat, records: seq<seq<V>>, calls: seq<Call<V>>)
  {
    predicate Formed()
    {
      && |current| == |published| == |value| == |inputs|
      && InStep(data) && forall i :: 0 <= i < |inputs| ==> InStep(inputs[i].list)
    }

    function Values(): (v: seq<V>)
      ensures |v| == |inputs|
    {
      seq(|inputs|, i requires 0 <= i < |inputs| => inputs[i].value)
    }

    predicate Heard() { data.callbacks != [] }
  }

  predicate InStep(c: Counters)
  {
    c.Valid() && c.currentIndex < |c.callbacks| && !c.disposed
  }

  /** Subscribing and leaving, on a list that is never disposed. */
  function Joined(c: Counters, cb: nat): (r: Counters)
    requires InStep(c)
    ensures InStep(r) && r == Count(c, Subscribe(cb)).counters && !Count(c, Subscribe(cb)).threw
  {
    c.(callbacks := c.callbacks + [cb])
  }

  function Parted(c: Counters, cb: nat): (r: Counters)
    requires InStep(c)
    ensures InStep(r) && r.currentIndex <= c.currentIndex && Left(r) <= Left(c)
  {
    CountLeft(c, Unsubscribe(cb));
    Count(c, Unsubscribe(cb)).counters
  }

  /** Every input's list changed in the same way. */
  function JoinAll<V>(inputs: seq<Input<V>>, g: nat): (r: seq<Input<V>>)
    requires forall i :: 0 <= i < |inputs| ==> InStep(inputs[i].list)
    ensures |r| == |inputs|
  {
    seq(|inputs|, i requires 0 <= i < |inputs| => inputs[i].(list := Joined(inputs[i].list, g)))
  }

  function PartAll<V>(inputs: seq<Input<V>>, g: nat): (r: seq<Input<V>>)
    requires forall i :: 0 <= i < |inputs| ==> InStep(inputs[i].list)
    ensures |r| == |inputs|
  {
    seq(|inputs|, i requires 0 <= i < |inputs| => inputs[i].(list := Parted(inputs[i].list, g)))
  }

  datatype After<V> = After(world: World<V>, threw: bool)

  // ------------------------------------------------------------------ the steps

  function RunScript<V(==)>(w: World<V>, s: seq<Action<V>>): (r: After<V>)
    requires w.Formed()
    ensures r.world.Formed() && |r.world.inputs| == |w.inputs|
    decreases ActionsSize(s), 0, 1
  {
    if s == [] then After(w, false)
    else
      var r := Perform(w, s[0]);
      if r.threw then r else RunScript(r.world, s[1..])
  }

  function Perform<V(==)>(w: World<V>, a: Action<V>): (r: After<V>)
    requires w.Formed()
    ensures r.world.Formed() && |r.world.inputs| == |w.inputs|
    decreases Size(a), 0, 0
  {
    match a
    case SetInput(k, v, caught, turns) =>
      if k >= |w.inputs| then After(w, false)
      else
        var r := SetTo(w, k, v, turns);
        After(r.world, r.threw && !caught)
    case Listen(cb) => Heed(w, cb)
    case Stop(cb) => After(Leaving(w, cb), false)
    case Fail => After(w, true)
  }

  /** An input cannot be set while it tells its subscribers; setting an equal value tells nobody. */
  function SetTo<V(==)>(w: World<V>, k: nat, v: V, turns: seq<Turn<V>>): (r: After<V>)
    requires w.Formed() && k < |w.inputs|
    ensures r.world.Formed() && |r.world.inputs| == |w.inputs|
    decreases TurnsSize(turns), 3, 0
  {
    var i := w.inputs[k];
    if i.list.currentIndex != -1 then After(w, true)
    else if i.value == v then After(w, false)
    else
      var r := InputPass(w.(inputs := w.inputs[k := Input(v, i.list.(n := |i.list.callbacks|))]), k, v, turns);
      After(InputRests(r.world, k), r.threw)
  }

  function InputRests<V>(w: World<V>, k: nat): World<V>
    requires k < |w.inputs|
  {
    w.(inputs := w.inputs[k := w.inputs[k].(list := w.inputs[k].list.(currentIndex := -1))])
  }

  function InputNext<V>(w: World<V>, k: nat): World<V>
    requires k < |w.inputs|
  {
    w.(inputs := w.inputs[k := w.inputs[k].(list := Advance(w.inputs[k].list))])
  }

  /** An input tells its subscribers, each of them a subscription of the record. */
  function InputPass<V(==)>(w: World<V>, k: nat, v: V, turns: seq<Turn<V>>): (r: After<V>)
    requires w.Formed() && k < |w.inputs|
    ensures r.world.Formed() && |r.world.inputs| == |w.inputs|
    decreases TurnsSize(turns), 2, Left(w.inputs[k].list)
  {
    if w.inputs[k].list.currentIndex >= w.inputs[k].list.n - 1 then After(w, false)
    else
      var r := Notice(InputNext(w, k), k, v, FirstTurn(turns));
      if r.threw then r else InputPass(r.world, k, v, Others(turns))
  }

  /** The record's subscription notes the value and publishes. */
  function Notice<V(==)>(w: World<V>, k: nat, v: V, scripts: seq<Script<V>>): (r: After<V>)
    requires w.Formed() && k < |w.inputs|
    ensures r.world.Formed() && |r.world.inputs| == |w.inputs|
    ensures scripts == [] ==> r.world.inputs == w.inputs
    decreases ScriptsSize(scripts), 1, 2
  {
    Publish(w.(current := w.current[k := v]), scripts)
  }

  function Publish<V(==)>(w: World<V>, scripts: seq<Script<V>>): (r: After<V>)
    requires w.Formed()
    ensures r.world.Formed() && |r.world.inputs| == |w.inputs|
    ensures scripts == [] ==> r.world.inputs == w.inputs
    decreases ScriptsSize(scripts), 1, 1
  {
    SetData(w.(published := w.current), scripts)
  }

  /** The value behind the record cannot be set while it tells its listeners. A published record is always a new one. */
  function SetData<V(==)>(w: World<V>, scripts: seq<Script<V>>): (r: After<V>)
    requires w.Formed()
    ensures r.world.Formed() && |r.world.inputs| == |w.inputs|
    ensures scripts == [] ==> r.world.inputs == w.inputs
    decreases ScriptsSize(scripts), 1, 0
  {
    if w.data.currentIndex != -1 then After(w, true)
    else
      var r := DataPass(w.(value := w.published, records := w.records + [w.published],
                           data := w.data.(n := |w.data.callbacks|)), w.published, scripts);
      After(r.world.(data := r.world.data.(currentIndex := -1)), r.threw)
  }

  /** The value behind the record tells the listeners. */
  function DataPass<V(==)>(w: World<V>, record: seq<V>, scripts: seq<Script<V>>): (r: After<V>)
    requires w.Formed()
    ensures r.world.Formed() && |r.world.inputs| == |w.inputs|
    ensures scripts == [] ==> r.world.inputs == w.inputs
    decreases ScriptsSize(scripts), 0, 2 + Left(w.data)
  {
    if w.data.currentIndex >= w.data.n - 1 then After(w, false)
    else
      var r := RunScript(CallNext(w, record), FirstScript(scripts));
      if r.threw then r else DataPass(r.world, record, Others(scripts))
  }

  function CallNext<V>(w: World<V>, record: seq<V>): (r: World<V>)
    requires w.Formed() && w.data.currentIndex < w.data.n - 1
    ensures r.Formed() && |r.inputs| == |w.inputs|
  {
    w.(data := Advance(w.data), calls := w.calls + [Call(w.data.callbacks[w.data.currentIndex + 1], record)])
  }

  /** The first listener makes the record subscribe to its inputs; every listener is called with the record at once. */
  function Heed<V(==)>(w: World<V>, cb: nat): (r: After<V>)
    requires w.Formed()
    ensures r.world.Formed() && |r.world.inputs| == |w.inputs|
    decreases 0, 9, 9
  {
    var r := if w.Heard() then After(w, false) else SubscribeAll(w);
    if r.threw then r
    else After(r.world.(data := Joined(r.world.data, cb), calls := r.world.calls + [Call(cb, r.world.value)]), false)
  }

  /** Subscribes to every input; each tells its value at once, which is noted. One record is published behind all of
      them, if anything differs from the one published last. */
  function SubscribeAll<V(==)>(w: World<V>): (r: After<V>)
    requires w.Formed()
    ensures r.world.Formed() && |r.world.inputs| == |w.inputs|
    decreases 0, 8, 8
  {
    var w1 := w.(inputs := JoinAll(w.inputs, w.next), next := w.next + 1, current := w.Values());
    if w1.current == w1.published then After(w1.(sub := Some(w.next)), false)
    else
      var r := Publish(w1, []);
      if r.threw then r else After(r.world.(sub := Some(w.next)), false)
  }

  /** With the last listener the inputs are let go. */
  function Leaving<V>(w: World<V>, cb: nat): (r: World<V>)
    requires w.Formed()
    ensures r.Formed() && |r.inputs| == |w.inputs|
  {
    var w1 := w.(data := Parted(w.data, cb));
    if w1.Heard() || w1.sub.None? then w1 else w1.(inputs := PartAll(w.inputs, w.sub.value), sub := None)
  }

  lemma NoScript<V>(w: World<V>)
    requires w.Formed()
    ensures RunScript(w, []) == After(w, false)
  {
  }

  function Start<V>(values: seq<V>): (w: World<V>)
    ensures w.Formed()
  {
    var none := Counters([], -1, 0, false);
    World(seq(|values|, i requires 0 <= i < |values| => Input(values[i], none)), none, values, values, values, None, 0, [], [])
  }

  // ------------------------------------------------------------------ the object

  class CombinedData<V(==)> {
    var inputs: seq<Input<V>>
    var data: Counters
    var value: seq<V>
    var current: seq<V>
    var published: seq<V>
    var sub: Option<nat>
    var next: nat
    ghost var records: seq<seq<V>>
    ghost var calls: seq<Call<V>>

    ghost function View(): World<V>
      reads this
    {
      World(inputs, data, value, current, published, sub, next, records, calls)
    }

    constructor (values: seq<V>)
      ensures View() == Start(values)
    {
      var none := Counters([], -1, 0, false);
      inputs := seq(|values|, i requires 0 <= i < |values| => Input(values[i], none));
      data, value, current, published := none, values, values, values;
      sub, next, records, calls := None, 0, [], [];
    }

    /** A listener's turn, or a part of the program. */
    method Run(script: seq<Action<V>>) returns (threw: bool)
      requires View().Formed()
      modifies this
      ensures After(View(), threw) == RunScript(old(View()), script)
      decreases ActionsSize(script), 0, 1
    {
      hide Perform, World.Formed;
      if script == [] { return false; }
      threw := Execute(script[0]);
      if !threw { threw := Run(script[1..]); }
    }

    method Execute(a: Action<V>) returns (threw: bool)
      requires View().Formed()
      modifies this
      ensures After(View(), threw) == Perform(old(View()), a)
      decreases Size(a), 0, 0
    {
      hide SetTo, Heed, Leaving;
      match a {
        case SetInput(k, v, caught, turns) =>
          if k >= |inputs| { return false; }
          threw := SetInputValue(k, v, turns);
          threw := threw && !caught;
        case Listen(cb) => threw := OnData(cb);
        case Stop(cb) =>
          Off(cb);
          threw := false;
        case Fail => threw := true;
      }
    }

    method SetInputValue(k: nat, v: V, turns: seq<Turn<V>>) returns (threw: bool)
      requires View().Formed() && k < |inputs|
      modifies this
      ensures After(View(), threw) == SetTo(old(View()), k, v, turns)
      decreases TurnsSize(turns), 3, 0
    {
      hide InputPass;
      var i := inputs[k];
      if i.list.currentIndex != -1 { return true; }
      if i.value == v { return false; }
      inputs := inputs[k := Input(v, i.list.(n := |i.list.callbacks|))];
      threw := NotifyInput(k, v, turns);
      inputs := inputs[k := inputs[k].(list := inputs[k].list.(currentIndex := -1))];
    }

    /** An input tells its subscribers. */
    method NotifyInput(k: nat, v: V, turns: seq<Turn<V>>) returns (threw: bool)
      requires View().Formed() && k < |inputs|
      modifies this
      ensures After(View(), threw) == InputPass(old(View()), k, v, turns)
      decreases TurnsSize(turns), 2, 0
    {
      hide Notice;
      var rest := turns;
      threw := false;
      while !threw && inputs[k].list.currentIndex < inputs[k].list.n - 1
        invariant View().Formed() && k < |inputs| && TurnsSize(rest) <= TurnsSize(turns)
        invariant InputPass(old(View()), k, v, turns) == if threw then After(View(), true) else InputPass(View(), k, v, rest)
        decreases !threw, TurnsSize(rest), Left(inputs[k].list)
      {
        ghost var w := View();
        inputs := inputs[k := inputs[k].(list := Advance(inputs[k].list))];
        assert View() == InputNext(w, k);
        threw := OnInput(k, v, FirstTurn(rest));
        rest := Others(rest);
      }
    }

    /** What an input calls: note the value and publish. */
    method OnInput(k: nat, v: V, scripts: seq<Script<V>>) returns (threw: bool)
      requires View().Formed() && k < |inputs|
      modifies this
      ensures After(View(), threw) == Notice(old(View()), k, v, scripts)
      decreases ScriptsSize(scripts), 1, 2
    {
      hide SetData;
      current := current[k := v];
      threw := PublishCurrent(scripts);
    }

    method PublishCurrent(scripts: seq<Script<V>>) returns (threw: bool)
      requires View().Formed()
      modifies this
      ensures After(View(), threw) == Publish(old(View()), scripts)
      decreases ScriptsSize(scripts), 1, 1
    {
      hide SetData;
      published := current;
      threw := SetPublished(scripts);
    }

    /** The value behind the record refuses while it is being told. */
    method SetPublished(scripts: seq<Script<V>>) returns (threw: bool)
      requires View().Formed()
      modifies this
      ensures After(View(), threw) == SetData(old(View()), scripts)
      decreases ScriptsSize(scripts), 1, 0
    {
      hide DataPass;
      if data.currentIndex != -1 { return true; }
      value := published;
      records := records + [published];
      data := data.(n := |data.callbacks|);
      threw := NotifyListeners(published, scripts);
      data := data.(currentIndex := -1);
    }

    method NotifyListeners(record: seq<V>, scripts: seq<Script<V>>) returns (threw: bool)
      requires View().Formed()
      modifies this
      ensures After(View(), threw) == DataPass(old(View()), record, scripts)
      decreases ScriptsSize(scripts), 0, 2
    {
      hide RunScript;
      var rest := scripts;
      threw := false;
      while !threw && data.currentIndex < data.n - 1
        invariant View().Formed() && ScriptsSize(rest) <= ScriptsSize(scripts)
        invariant DataPass(old(View()), record, scripts) == if threw then After(View(), true) else DataPass(View(), record, rest)
        decreases !threw, ScriptsSize(rest), Left(data)
      {
        ghost var w := View();
        calls := calls + [Call(data.callbacks[data.currentIndex + 1], record)];
        data := Advance(data);
        assert View() == CallNext(w, record);
        if rest == [] { NoScript(View()); }
        threw := Run(FirstScript(rest));
        rest := Others(rest);
      }
    }

    /** A listener comes, and is called with the record at once. */
    method OnData(cb: nat) returns (threw: bool)
      requires View().Formed()
      modifies this
      ensures After(View(), threw) == Heed(old(View()), cb)
      decreases 0, 9, 9
    {
      hide SubscribeAll;
      if data.callbacks == [] {
        threw := SubscribeInputs();
        if threw { return; }
      }
      data := Joined(data, cb);
      calls := calls + [Call(cb, value)];
      threw := false;
    }

    /** Each input tells its value at once, which is noted; publishing waits until all are subscribed. */
    method SubscribeInputs() returns (threw: bool)
      requires View().Formed()
      modifies this
      ensures After(View(), threw) == SubscribeAll(old(View()))
      decreases 0, 8, 8
    {
      hide Joined, Publish, Left;
      var g := next;
      next := next + 1;
      JoinInputs(g);
      if current != published {
        threw := PublishCurrent([]);
        if threw { return; }
      }
      sub := Some(g);
      threw := false;
    }

    method JoinInputs(g: nat)
      requires View().Formed()
      modifies this`inputs, this`current
      ensures inputs == JoinAll(old(inputs), g) && current == old(View()).Values()
    {
      hide Joined, Left, Counters.Valid;
      ghost var was := inputs;
      for i := 0 to |inputs|
        invariant |inputs| == |current| == |was|
        invariant forall j :: 0 <= j < |was| ==> InStep(was[j].list)
        invariant forall j :: i <= j < |was| ==> inputs[j] == was[j]
        invariant forall j :: 0 <= j < i ==> inputs[j] == was[j].(list := Joined(was[j].list, g)) && current[j] == was[j].value
      {
        current := current[i := inputs[i].value];
        inputs := inputs[i := inputs[i].(list := Joined(inputs[i].list, g))];
      }
    }

    /** A listener goes; with the last one the inputs are let go. */
    method Off(cb: nat)
      requires View().Formed()
      modifies this
      ensures View() == Leaving(old(View()), cb)
    {
      hide Parted;
      data := Parted(data, cb);
      if data.callbacks == [] && sub.Some? {
        PartInputs(sub.value);
        sub := None;
      }
    }

    method PartInputs(g: nat)
      requires View().Formed()
      modifies this`inputs
      ensures inputs == PartAll(old(inputs), g)
    {
      hide Parted, Left, Counters.Valid;
      ghost var was := inputs;
      for i := 0 to |inputs|
        invariant |inputs| == |was|
        invariant forall j :: 0 <= j < |was| ==> InStep(was[j].list)
        invariant forall j :: i <= j < |was| ==> inputs[j] == was[j]
        invariant forall j :: 0 <= j < i ==> inputs[j] == was[j].(list := Parted(was[j].list, g))
      {
        inputs := inputs[i := inputs[i].(list := Parted(inputs[i].list, g))];
      }
    }
  }
}

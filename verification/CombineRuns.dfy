/**
 What holds of a combined record over every run: when it is subscribed to its inputs, when it is current, and the one
 thing listeners must not do.
 */
module CombineRuns {
  import opened Wrappers
  import opened Combine
  import O = Observable

  // ------------------------------------------------------------------ subscribed exactly while someone listens

  function Subs(sub: Option<nat>): seq<nat>
  {
    match sub case None => [] case Some(g) => [g]
  }

  /** Every input is subscribed, once, exactly when there is a listener. */
  predicate Attached<V>(w: World<V>)
  {
    && w.Formed() && (w.sub.Some? <==> w.Heard())
    && forall i :: 0 <= i < |w.inputs| ==> w.inputs[i].list.callbacks == Subs(w.sub)
  }

  /** No list has moved on. */
  predicate NotAhead<V>(w: World<V>, x: World<V>)
  {
    && |x.inputs| == |w.inputs| && x.data.currentIndex <= w.data.currentIndex
    && forall i :: 0 <= i < |w.inputs| ==> x.inputs[i].list.currentIndex <= w.inputs[i].list.currentIndex
  }

  /** Nobody is telling anything. */
  predicate Idle<V>(w: World<V>)
  {
    w.data.currentIndex == -1 && forall i :: 0 <= i < |w.inputs| ==> w.inputs[i].list.currentIndex == -1
  }

  /** The world behind the first listener's coming, up to its own subscription. */
  function Subscribed<V(==)>(w: World<V>): World<V>
    requires w.Formed()
  {
    var now := w.Values();
    w.(inputs := JoinAll(w.inputs, w.next), next := w.next + 1, sub := Some(w.next), current := now, published := now,
       value := if now == w.published then w.value else now,
       records := if now == w.published then w.records else w.records + [now],
       data := if now == w.published then w.data else w.data.(n := 0))
  }

  /** Subscribing never fails: while nobody listens, nobody is being told. */
  lemma SubscribeWorks<V>(w: World<V>)
    requires w.Formed() && !w.Heard()
    ensures SubscribeAll(w) == After(Subscribed(w), false)
  {
    hide Joined, O.Left, O.Counters.Valid;
    assert w.data.currentIndex == -1 by { NobodyTold(w); }
  }

  lemma NobodyTold<V>(w: World<V>)
    requires w.Formed() && !w.Heard()
    ensures w.data.currentIndex == -1
  {
  }

  /** The world behind a listener's coming. */
  function Heeded<V(==)>(w: World<V>, cb: nat): World<V>
    requires w.Formed()
  {
    var w1 := if w.Heard() then w else Subscribed(w);
    w1.(data := w1.data.(callbacks := w1.data.callbacks + [cb]), calls := w1.calls + [Call(cb, w1.value)])
  }

  lemma HeedWorks<V>(w: World<V>, cb: nat)
    requires w.Formed()
    ensures Heed(w, cb) == After(Heeded(w, cb), false)
  {
    hide Subscribed, SubscribeAll;
    if !w.Heard() { SubscribeWorks(w); }
  }

  lemma PartedOnly(c: O.Counters, g: nat)
    requires InStep(c) && c.callbacks == [g]
    ensures Parted(c, g).callbacks == []
  {
    assert O.IndexOf([g], g) == 0;
    assert O.RemoveAt([g], 0) == [];
  }

  lemma HeedKeeps<V>(w: World<V>, cb: nat)
    requires Attached(w)
    ensures Attached(Heeded(w, cb)) && NotAhead(w, Heeded(w, cb))
  {
    hide Parted, O.Count;
    var x := Heeded(w, cb);
    assert x.Formed() by { HeedWorks(w, cb); }
    if !w.Heard() {
      NobodyTold(w);
      forall i | 0 <= i < |x.inputs| ensures x.inputs[i].list.callbacks == [w.next] { }
    }
  }

  lemma LeavingKeeps<V>(w: World<V>, cb: nat)
    requires Attached(w)
    ensures Attached(Leaving(w, cb)) && NotAhead(w, Leaving(w, cb))
  {
    hide Parted, O.Count, Joined;
    var w1 := w.(data := Parted(w.data, cb));
    if !w1.Heard() && w1.sub.Some? {
      forall i | 0 <= i < |w.inputs| ensures Parted(w.inputs[i].list, w.sub.value).callbacks == [] {
        PartedOnly(w.inputs[i].list, w.sub.value);
      }
    } else if !w.Heard() {
      PartedNone(w.data, cb);
    }
  }

  lemma PartedNone(c: O.Counters, cb: nat)
    requires InStep(c) && c.callbacks == []
    ensures Parted(c, cb) == c
  {
  }

  lemma {:induction false} ActKeeps<V>(w: World<V>, a: Action<V>)
    requires Attached(w)
    ensures Attached(Perform(w, a).world) && NotAhead(w, Perform(w, a).world)
    decreases Size(a), 0, 0
  {
    hide Attached, NotAhead, Heed, Leaving, SetTo;
    NotAheadOfItself(w);
    assert w.Formed() by { AttachedFormed(w); }
    match a
    case SetInput(k, v, caught, turns) => if k < |w.inputs| { SetToKeeps(w, k, v, turns); }
    case Listen(cb) =>
      HeedWorks(w, cb);
      HeedKeeps(w, cb);
    case Stop(cb) => LeavingKeeps(w, cb);
    case Fail =>
  }

  lemma AttachedFormed<V>(w: World<V>)
    requires Attached(w)
    ensures w.Formed()
  {
  }

  lemma NotAheadOfItself<V>(w: World<V>)
    ensures NotAhead(w, w)
  {
  }

  lemma {:induction false} ScriptKeeps<V>(w: World<V>, s: seq<Action<V>>)
    requires Attached(w)
    ensures Attached(RunScript(w, s).world) && NotAhead(w, RunScript(w, s).world)
    decreases ActionsSize(s), 0, 1
  {
    hide Attached, Perform, World.Formed;
    AttachedFormed(w);
    if s != [] {
      ActKeeps(w, s[0]);
      var r := Perform(w, s[0]);
      if !r.threw { ScriptKeeps(r.world, s[1..]); }
    }
  }

  lemma {:induction false} SetToKeeps<V>(w: World<V>, k: nat, v: V, turns: seq<Turn<V>>)
    requires Attached(w) && k < |w.inputs|
    ensures Attached(SetTo(w, k, v, turns).world) && NotAhead(w, SetTo(w, k, v, turns).world)
    decreases TurnsSize(turns), 3, 0
  {
    hide InputPass;
    var i := w.inputs[k];
    if i.list.currentIndex == -1 && i.value != v {
      var w1 := w.(inputs := w.inputs[k := Input(v, i.list.(n := |i.list.callbacks|))]);
      InputPassKeeps(w1, k, v, turns);
    }
  }

  /** As `NotAhead`, but for the input that tells its value. */
  predicate OthersNotAhead<V>(w: World<V>, x: World<V>, k: nat)
  {
    && |x.inputs| == |w.inputs| && x.data.currentIndex <= w.data.currentIndex
    && forall i :: 0 <= i < |w.inputs| && i != k ==> x.inputs[i].list.currentIndex <= w.inputs[i].list.currentIndex
  }

  lemma {:induction false} InputPassKeeps<V>(w: World<V>, k: nat, v: V, turns: seq<Turn<V>>)
    requires Attached(w) && k < |w.inputs|
    ensures Attached(InputPass(w, k, v, turns).world) && OthersNotAhead(w, InputPass(w, k, v, turns).world, k)
    decreases TurnsSize(turns), 2, O.Left(w.inputs[k].list)
  {
    hide Notice;
    if w.inputs[k].list.currentIndex < w.inputs[k].list.n - 1 {
      var w1 := InputNext(w, k);
      NoticeKeeps(w1, k, v, FirstTurn(turns));
      var r := Notice(w1, k, v, FirstTurn(turns));
      if !r.threw { InputPassKeeps(r.world, k, v, Others(turns)); }
    }
  }

  /** The world in which a new record is being told. */
  function Telling<V>(w: World<V>, now: seq<V>): World<V>
  {
    w.(current := now, published := now, value := now, records := w.records + [now], data := w.data.(n := |w.data.callbacks|))
  }

  function DataRests<V>(w: World<V>): World<V>
  {
    w.(data := w.data.(currentIndex := -1))
  }

  /** While the listeners are told of one record, the next one is noted and refused. */
  lemma NoticeIs<V>(w: World<V>, k: nat, v: V, scripts: seq<Script<V>>)
    requires w.Formed() && k < |w.inputs|
    ensures var now := w.current[k := v];
            Telling(w, now).Formed() &&
            Notice(w, k, v, scripts) ==
              if w.data.currentIndex != -1 then After(w.(current := now, published := now), true)
              else
                var r := DataPass(Telling(w, now), now, scripts);
                After(DataRests(r.world), r.threw)
  {
    hide DataPass, RunScript, O.Counters.Valid;
    var now := w.current[k := v];
    var w1 := w.(current := now, published := now);
    assert w1.Formed();
    assert Telling(w, now).Formed() by { TellingFormed(w, now); }
    assert Publish(w.(current := now), scripts) == SetData(w1, scripts);
    assert w1.(value := now, records := w.records + [now], data := w.data.(n := |w.data.callbacks|)) == Telling(w, now);
  }

  lemma TellingFormed<V>(w: World<V>, now: seq<V>)
    requires w.Formed() && |now| == |w.inputs|
    ensures Telling(w, now).Formed()
  {
  }

  lemma {:induction false} NoticeKeeps<V>(w: World<V>, k: nat, v: V, scripts: seq<Script<V>>)
    requires Attached(w) && k < |w.inputs|
    ensures Attached(Notice(w, k, v, scripts).world) && NotAhead(w, Notice(w, k, v, scripts).world)
    decreases ScriptsSize(scripts), 1, 2
  {
    hide DataPass, Notice;
    NoticeIs(w, k, v, scripts);
    if w.data.currentIndex == -1 {
      var now := w.current[k := v];
      DataPassKeeps(Telling(w, now), now, scripts);
    }
  }

  predicate InputsNotAhead<V>(w: World<V>, x: World<V>)
  {
    && |x.inputs| == |w.inputs|
    && forall i :: 0 <= i < |w.inputs| ==> x.inputs[i].list.currentIndex <= w.inputs[i].list.currentIndex
  }

  lemma {:induction false} DataPassKeeps<V>(w: World<V>, record: seq<V>, scripts: seq<Script<V>>)
    requires Attached(w)
    ensures Attached(DataPass(w, record, scripts).world) && InputsNotAhead(w, DataPass(w, record, scripts).world)
    decreases ScriptsSize(scripts), 0, 2 + O.Left(w.data)
  {
    hide RunScript;
    if w.data.currentIndex < w.data.n - 1 {
      var w1 := CallNext(w, record);
      ScriptKeeps(w1, FirstScript(scripts));
      var r := RunScript(w1, FirstScript(scripts));
      if scripts == [] { assert r == After(w1, false) by { NoScript(w1); } }
      if !r.threw { DataPassKeeps(r.world, record, Others(scripts)); }
    }
  }

  /** A program at rest: each action by itself, its errors dropped. */
  function RunTop<V(==)>(w: World<V>, program: seq<Action<V>>): (x: World<V>)
    requires w.Formed()
    ensures x.Formed() && |x.inputs| == |w.inputs|
    decreases |program|
  {
    if program == [] then w else Perform(RunTop(w, program[..|program| - 1]), program[|program| - 1]).world
  }

  /** After any program, whatever listeners do when they are told: the inputs are subscribed, once each, exactly when
      there is a listener, and nobody is left in the middle of telling. */
  lemma {:induction false} SubscribedWhileHeard<V>(values: seq<V>, program: seq<Action<V>>)
    ensures Attached(RunTop(Start(values), program)) && Idle(RunTop(Start(values), program))
    decreases |program|
  {
    hide Perform;
    if program != [] {
      var n := |program| - 1;
      SubscribedWhileHeard(values, program[..n]);
      var w := RunTop(Start(values), program[..n]);
      ActKeeps(w, program[n]);
      StillIdle(w, Perform(w, program[n]).world);
    }
  }

  lemma StillIdle<V>(w: World<V>, x: World<V>)
    requires Idle(w) && NotAhead(w, x) && x.Formed()
    ensures Idle(x)
  {
  }

  // ------------------------------------------------------------------ listeners that set nothing

  /** No input is set before the script fails. */
  ghost predicate Calm<V>(s: seq<Action<V>>)
    decreases |s|
  {
    s == [] || s[0].Fail? || (!s[0].SetInput? && Calm(s[1..]))
  }

  ghost predicate AllCalm<V>(scripts: seq<Script<V>>)
  {
    forall s :: s in scripts ==> Calm(s.actions)
  }

  /** A program may set inputs, but not from a listener that is being told. */
  ghost predicate Tame<V>(a: Action<V>)
  {
    a.SetInput? ==> forall t :: t in a.turns ==> AllCalm(t.scripts)
  }

  /** The record is that of the inputs. */
  ghost predicate Steady<V>(w: World<V>)
  {
    w.value == w.published == w.current == w.Values()
  }

  /** Nothing but lists has changed, no list has more to tell, and only the present record has been handed out. */
  ghost predicate OnlyLists<V>(w: World<V>, x: World<V>)
  {
    && NotAhead(w, x) && x.Values() == w.Values() && x.records == w.records && x.value == w.value
    && (forall i :: 0 <= i < |w.inputs| ==> O.Left(x.inputs[i].list) <= O.Left(w.inputs[i].list))
    && forall c :: c in x.calls ==> c in w.calls || c.record == w.value
  }

  lemma OnlyListsJoin<V>(w: World<V>, x: World<V>, y: World<V>)
    requires OnlyLists(w, x) && OnlyLists(x, y)
    ensures OnlyLists(w, y)
  {
    hide O.Left;
  }

  lemma OnlyListsSelf<V>(w: World<V>)
    ensures OnlyLists(w, w)
  {
  }

  lemma JoinedLeft(c: O.Counters, g: nat)
    requires InStep(c)
    ensures O.Left(Joined(c, g)) == O.Left(c)
  {
  }

  lemma CalmHeed<V>(w: World<V>, cb: nat)
    requires Attached(w) && Steady(w)
    ensures Steady(Heeded(w, cb)) && OnlyLists(w, Heeded(w, cb))
  {
    HeedKeeps(w, cb);
    hide O.Left, O.Count, Attached, NotAhead;
    var x := Heeded(w, cb);
    assert x.Values() == w.Values();
    if !w.Heard() {
      forall i | 0 <= i < |w.inputs| ensures O.Left(x.inputs[i].list) <= O.Left(w.inputs[i].list) {
        JoinedLeft(w.inputs[i].list, w.next);
      }
    }
  }

  lemma CalmLeaving<V>(w: World<V>, cb: nat)
    requires Attached(w) && Steady(w)
    ensures Steady(Leaving(w, cb)) && OnlyLists(w, Leaving(w, cb))
  {
    LeavingKeeps(w, cb);
    hide O.Left, O.Count, Attached, NotAhead, Parted;
    var x := Leaving(w, cb);
    assert x.Values() == w.Values();
  }

  lemma CalmAct<V>(w: World<V>, a: Action<V>)
    requires Attached(w) && Steady(w) && !a.SetInput?
    ensures var x := Perform(w, a).world; Attached(x) && Steady(x) && OnlyLists(w, x)
  {
    ActKeeps(w, a);
    hide Attached, Steady, OnlyLists, Heeded, Leaving, Heed;
    OnlyListsSelf(w);
    match a
    case Listen(cb) =>
      HeedWorks(w, cb);
      CalmHeed(w, cb);
    case Stop(cb) => CalmLeaving(w, cb);
    case _ =>
  }

  lemma {:induction false} CalmScript<V>(w: World<V>, s: seq<Action<V>>)
    requires Attached(w) && Steady(w) && Calm(s)
    ensures var x := RunScript(w, s).world; Attached(x) && Steady(x) && OnlyLists(w, x)
    decreases |s|
  {
    hide Attached, Steady, OnlyLists, Perform, World.Formed;
    AttachedFormed(w);
    OnlyListsSelf(w);
    if s != [] {
      var r := Perform(w, s[0]);
      if s[0].Fail? {
        FailFails(w);
      } else {
        CalmAct(w, s[0]);
        if !r.threw {
          CalmScript(r.world, s[1..]);
          OnlyListsJoin(w, r.world, RunScript(r.world, s[1..]).world);
        }
      }
    }
  }

  lemma FailFails<V>(w: World<V>)
    requires w.Formed()
    ensures Perform(w, Fail) == After(w, true)
  {
  }

  /** As `OnlyLists`, but for the list of the listeners, which is told. */
  ghost predicate OnlyTold<V>(w: World<V>, x: World<V>)
  {
    && InputsNotAhead(w, x) && x.Values() == w.Values() && x.records == w.records && x.value == w.value
    && (forall i :: 0 <= i < |w.inputs| ==> O.Left(x.inputs[i].list) <= O.Left(w.inputs[i].list))
    && forall c :: c in x.calls ==> c in w.calls || c.record == w.value
  }

  lemma OnlyToldJoin<V>(w: World<V>, x: World<V>, y: World<V>)
    requires OnlyTold(w, x) && OnlyTold(x, y)
    ensures OnlyTold(w, y)
  {
    hide O.Left;
  }

  lemma CalmCall<V>(w: World<V>, s: seq<Action<V>>)
    requires Attached(w) && Steady(w) && Calm(s) && w.data.currentIndex < w.data.n - 1
    ensures var x := RunScript(CallNext(w, w.value), s).world; Attached(x) && Steady(x) && OnlyTold(w, x)
  {
    hide RunScript, O.Left;
    var w1 := CallNext(w, w.value);
    assert Attached(w1);
    assert w1.Values() == w.Values();
    CalmScript(w1, s);
  }

  lemma {:induction false} CalmPass<V>(w: World<V>, scripts: seq<Script<V>>)
    requires Attached(w) && Steady(w) && AllCalm(scripts)
    ensures var x := DataPass(w, w.value, scripts).world; Attached(x) && Steady(x) && OnlyTold(w, x)
    decreases ScriptsSize(scripts), O.Left(w.data)
  {
    hide RunScript, Attached, Steady, OnlyTold, World.Formed, CallNext, Calm;
    AttachedFormed(w);
    if w.data.currentIndex >= w.data.n - 1 {
      ToldSelf(w);
    } else {
      assert Calm(FirstScript(scripts)) by { if scripts == [] { NothingIsCalm<V>(); } else { assert scripts[0] in scripts; } }
      CalmCall(w, FirstScript(scripts));
      var r := RunScript(CallNext(w, w.value), FirstScript(scripts));
      if !r.threw {
        SameValue(w, r.world);
        assert AllCalm(Others(scripts));
        if scripts == [] { CallMovesOn(w); }
        CalmPass(r.world, Others(scripts));
        OnlyToldJoin(w, r.world, DataPass(r.world, w.value, Others(scripts)).world);
      }
    }
  }

  lemma ToldSelf<V>(w: World<V>)
    ensures OnlyTold(w, w)
  {
  }

  lemma NothingIsCalm<V>()
    ensures Calm<V>([])
  {
  }

  lemma SameValue<V>(w: World<V>, x: World<V>)
    requires OnlyTold(w, x)
    ensures x.value == w.value
  {
  }

  lemma CallMovesOn<V>(w: World<V>)
    requires w.Formed() && w.data.currentIndex < w.data.n - 1
    ensures O.Left(RunScript(CallNext(w, w.value), []).world.data) < O.Left(w.data)
  {
    NoScript(CallNext(w, w.value));
  }

  /** One complete record has been published. */
  ghost predicate PublishedOnce<V>(w: World<V>, x: World<V>)
  {
    && Attached(x) && Steady(x) && x.Values() == w.Values() && x.records == w.records + [w.Values()]
    && (forall i :: 0 <= i < |w.inputs| ==> O.Left(x.inputs[i].list) <= O.Left(w.inputs[i].list))
    && forall c :: c in x.calls ==> c in w.calls || c.record == w.Values()
  }

  lemma CalmNotice<V>(w: World<V>, k: nat, v: V, scripts: seq<Script<V>>)
    requires Attached(w) && w.data.currentIndex == -1 && k < |w.inputs| && w.current[k := v] == w.Values() && AllCalm(scripts)
    ensures PublishedOnce(w, Notice(w, k, v, scripts).world)
  {
    hide Notice, DataPass, AllCalm, O.Left;
    var now := w.Values();
    var t := Telling(w, now);
    NoticeIs(w, k, v, scripts);
    assert t.Values() == now;
    CalmPass(t, scripts);
    var x := DataPass(t, now, scripts).world;
    assert DataRests(x).Values() == x.Values();
  }

  lemma CalmInput<V>(w: World<V>, k: nat, v: V, turns: seq<Turn<V>>)
    requires Attached(w) && w.Heard() && Idle(w) && Steady(w) && k < |w.inputs| && w.inputs[k].value != v
    requires forall t :: t in turns ==> AllCalm(t.scripts)
    ensures var x := SetTo(w, k, v, turns).world;
            && Attached(x) && Steady(x) && x.Values() == w.Values()[k := v] && x.records == w.records + [x.Values()]
            && forall c :: c in x.calls ==> c in w.calls || c.record == x.Values()
  {
    hide Notice, AllCalm;
    var i := w.inputs[k];
    var w1 := w.(inputs := w.inputs[k := Input(v, i.list.(n := 1))]);
    assert |i.list.callbacks| == 1;
    var w2 := InputNext(w1, k);
    assert w2.Values() == w.Values()[k := v];
    assert AllCalm(FirstTurn(turns)) by { if turns == [] { NoScriptsCalm<V>(); } else { assert turns[0] in turns; } }
    CalmNotice(w2, k, v, FirstTurn(turns));
    var r := Notice(w2, k, v, FirstTurn(turns));
    assert O.Left(w2.inputs[k].list) == 0;
    assert InputPass(w1, k, v, turns) == r by { LastCall(w1, k, v, turns); }
    assert InputRests(r.world, k).Values() == r.world.Values();
  }

  lemma NoScriptsCalm<V>()
    ensures AllCalm<V>([])
  {
  }

  /** A pass with nothing left behind its first call. */
  lemma LastCall<V>(w: World<V>, k: nat, v: V, turns: seq<Turn<V>>)
    requires w.Formed() && k < |w.inputs| && O.Left(w.inputs[k].list) > 0
    requires var r := Notice(InputNext(w, k), k, v, FirstTurn(turns)); O.Left(r.world.inputs[k].list) == 0
    ensures InputPass(w, k, v, turns) == Notice(InputNext(w, k), k, v, FirstTurn(turns))
  {
    hide Notice;
    var r := Notice(InputNext(w, k), k, v, FirstTurn(turns));
    if !r.threw {
      assert InputPass(r.world, k, v, Others(turns)) == After(r.world, false);
    }
  }

  /** Nobody listens: the input's value changes and nothing else. */
  lemma UnheardInput<V>(w: World<V>, k: nat, v: V, turns: seq<Turn<V>>)
    requires Attached(w) && !w.Heard() && Idle(w) && k < |w.inputs| && w.inputs[k].value != v
    ensures var x := SetTo(w, k, v, turns).world;
            && x.Values() == w.Values()[k := v] && x.value == w.value && x.published == w.published && x.current == w.current
            && x.records == w.records && x.calls == w.calls && x.data == w.data
  {
    var i := w.inputs[k];
    var w1 := w.(inputs := w.inputs[k := Input(v, i.list.(n := 0))]);
    assert |i.list.callbacks| == 0;
    assert InputPass(w1, k, v, turns) == After(w1, false);
  }

  // ------------------------------------------------------------------ the record is current

  /** What a program at rest finds: whoever listens has the inputs' record. */
  ghost predicate Good<V>(w: World<V>)
  {
    Attached(w) && Idle(w) && w.value == w.published && (w.Heard() ==> Steady(w))
  }

  /** The inputs' values behind an action, whoever listens. */
  function ValuesAfter<V>(values: seq<V>, a: Action<V>): (r: seq<V>)
    ensures |r| == |values|
  {
    if a.SetInput? && a.input < |values| then values[a.input := a.value] else values
  }

  /** An action of a tame program publishes one complete record or none: one when an input changes while someone
      listens, or when the first listener finds changed inputs. */
  ghost predicate PublishesOnce<V>(w: World<V>, a: Action<V>)
  {
    match a
    case SetInput(k, v, _, _) => w.Heard() && k < |w.inputs| && w.inputs[k].value != v
    case Listen(_) => !w.Heard() && w.published != w.Values()
    case _ => false
  }

  ghost predicate TameStep<V>(w: World<V>, a: Action<V>, x: World<V>)
  {
    && Good(x) && x.Values() == ValuesAfter(w.Values(), a)
    && x.records == w.records + (if PublishesOnce(w, a) then [x.Values()] else [])
    && forall c :: c in x.calls ==> c in w.calls || c.record == x.Values()
  }

  lemma TameSet<V>(w: World<V>, k: nat, v: V, caught: bool, turns: seq<Turn<V>>)
    requires Good(w) && Tame(SetInput(k, v, caught, turns))
    ensures TameStep(w, SetInput(k, v, caught, turns), Perform(w, SetInput(k, v, caught, turns)).world)
  {
    hide SetTo, AllCalm;
    var a := SetInput(k, v, caught, turns);
    ActKeeps(w, a);
    StillIdle(w, Perform(w, a).world);
    if k >= |w.inputs| {
    } else if w.inputs[k].value == v {
      SameSet(w, k, v, turns);
      assert w.Values()[k := v] == w.Values();
    } else if w.Heard() {
      CalmInput(w, k, v, turns);
    } else {
      UnheardInput(w, k, v, turns);
    }
  }

  lemma SameSet<V>(w: World<V>, k: nat, v: V, turns: seq<Turn<V>>)
    requires w.Formed() && Idle(w) && k < |w.inputs| && w.inputs[k].value == v
    ensures SetTo(w, k, v, turns) == After(w, false)
  {
  }

  lemma TameListen<V>(w: World<V>, cb: nat)
    requires Good(w)
    ensures TameStep(w, Listen(cb), Perform(w, Listen(cb)).world)
  {
    hide Heed;
    ActKeeps(w, Listen(cb));
    StillIdle(w, Perform(w, Listen(cb)).world);
    HeedWorks(w, cb);
    var x := Heeded(w, cb);
    assert x.Values() == w.Values();
  }

  lemma TameStop<V>(w: World<V>, cb: nat)
    requires Good(w)
    ensures TameStep(w, Stop(cb), Perform(w, Stop(cb)).world)
  {
    hide Parted;
    ActKeeps(w, Stop(cb));
    StillIdle(w, Perform(w, Stop(cb)).world);
    var x := Leaving(w, cb);
    assert x.Values() == w.Values();
    if !w.Heard() { PartedNone(w.data, cb); }
  }

  lemma TameActs<V>(w: World<V>, a: Action<V>)
    requires Good(w) && Tame(a)
    ensures TameStep(w, a, Perform(w, a).world)
  {
    hide Perform, Good, Tame, TameStep;
    match a
    case SetInput(k, v, caught, turns) => TameSet(w, k, v, caught, turns);
    case Listen(cb) => TameListen(w, cb);
    case Stop(cb) => TameStop(w, cb);
    case Fail => TameFail(w);
  }

  lemma TameFail<V>(w: World<V>)
    requires Good(w)
    ensures TameStep(w, Fail, Perform(w, Fail).world)
  {
  }

  function AllValuesAfter<V>(values: seq<V>, program: seq<Action<V>>): (r: seq<V>)
    ensures |r| == |values|
    decreases |program|
  {
    if program == [] then values
    else ValuesAfter(AllValuesAfter(values, program[..|program| - 1]), program[|program| - 1])
  }

  /** The record stood for all inputs at some moment of the program. */
  ghost predicate WasComplete<V>(record: seq<V>, values: seq<V>, program: seq<Action<V>>)
  {
    exists k :: 0 <= k <= |program| && record == AllValuesAfter(values, program[..k])
  }

  lemma WasCompleteLater<V>(record: seq<V>, values: seq<V>, program: seq<Action<V>>, n: nat)
    requires n <= |program| && WasComplete(record, values, program[..n])
    ensures WasComplete(record, values, program)
  {
    var k :| 0 <= k <= n && record == AllValuesAfter(values, program[..n][..k]);
    assert program[..n][..k] == program[..k];
  }

  lemma CompleteNow<V>(values: seq<V>, program: seq<Action<V>>)
    ensures WasComplete(AllValuesAfter(values, program), values, program)
  {
    assert program[..|program|] == program;
  }

  /** Over every program in which no listener sets an input while it is told: whoever listens has the record of the
      inputs as they are, everything ever published or handed to a listener was complete at some moment, and no action
      publishes more than once. */
  lemma {:induction false} RecordIsCurrent<V>(values: seq<V>, program: seq<Action<V>>)
    requires forall a :: a in program ==> Tame(a)
    ensures var w := RunTop(Start(values), program);
            && Good(w) && w.Values() == AllValuesAfter(values, program)
            && (forall p :: p in w.records ==> WasComplete(p, values, program))
            && (forall c :: c in w.calls ==> WasComplete(c.record, values, program))
            && |w.records| <= |program|
    decreases |program|
  {
    hide Perform, Tame, WasComplete;
    if program == [] {
      StartIsGood(values);
    } else {
      var n := |program| - 1;
      RecordIsCurrent(values, program[..n]);
      var w := RunTop(Start(values), program[..n]);
      assert program[n] in program;
      TameActs(w, program[n]);
      var x := Perform(w, program[n]).world;
      CompleteNow(values, program);
      forall p | p in x.records ensures WasComplete(p, values, program) {
        if p in w.records { WasCompleteLater(p, values, program, n); }
      }
      forall c | c in x.calls ensures WasComplete(c.record, values, program) {
        if c in w.calls { WasCompleteLater(c.record, values, program, n); }
      }
    }
  }

  lemma StartIsGood<V>(values: seq<V>)
    ensures Good(Start(values)) && Start(values).Values() == values
  {
  }

  // ------------------------------------------------------------------ listeners that set another input

  /** Some listener stands in front and stays, being told of a record that holds `z` for the inputs below `j`. */
  ghost predicate Held<V>(w: World<V>, f: nat, j: nat, z: V)
  {
    && Attached(w) && w.Heard() && w.data.callbacks[0] == f && w.data.currentIndex >= 0
    && j < |w.inputs| && O.Left(w.inputs[j].list) == 0
    && forall i :: 0 <= i < j ==> w.value[i] == z && w.inputs[i].list.currentIndex == -1
  }

  /** An input below `j` has another value. */
  ghost predicate Moved<V>(w: World<V>, j: nat, z: V)
  {
    exists i :: 0 <= i < j <= |w.inputs| && w.inputs[i].value != z
  }

  /** The action does not take out `f`, and sets inputs below `j` only, never to `z`. */
  ghost predicate Leaves<V>(a: Action<V>, f: nat, j: nat, z: V)
  {
    match a
    case SetInput(k, v, _, _) => k < j && v != z
    case Stop(cb) => cb != f
    case _ => true
  }

  ghost predicate AllLeave<V>(s: seq<Action<V>>, f: nat, j: nat, z: V)
  {
    forall i :: 0 <= i < |s| ==> Leaves(s[i], f, j, z)
  }

  ghost predicate StillHeld<V>(w: World<V>, x: World<V>, f: nat, j: nat, z: V)
  {
    Held(x, f, j, z) && x.value == w.value && (Moved(w, j, z) ==> Moved(x, j, z))
  }

  lemma PartedFront(c: O.Counters, f: nat, cb: nat)
    requires InStep(c) && c.callbacks != [] && c.callbacks[0] == f && cb != f && c.currentIndex >= 0
    ensures var r := Parted(c, cb); r.callbacks != [] && r.callbacks[0] == f && r.currentIndex >= 0
  {
    var i := O.IndexOf(c.callbacks, cb);
    if i >= 0 { assert O.RemoveAt(c.callbacks, i)[0] == c.callbacks[0]; }
  }

  lemma HeldStop<V>(w: World<V>, cb: nat, f: nat, j: nat, z: V)
    requires Held(w, f, j, z) && cb != f
    ensures StillHeld(w, Leaving(w, cb), f, j, z)
  {
    LeavingKeeps(w, cb);
    hide Parted, O.Left;
    PartedFront(w.data, f, cb);
    var x := Leaving(w, cb);
    assert x.inputs == w.inputs;
  }

  lemma HeldListen<V>(w: World<V>, cb: nat, f: nat, j: nat, z: V)
    requires Held(w, f, j, z)
    ensures StillHeld(w, Heeded(w, cb), f, j, z)
  {
    HeedKeeps(w, cb);
    hide O.Left;
    var x := Heeded(w, cb);
    assert x.inputs == w.inputs;
  }

  /** The input is set, the record is noted, and telling it is refused. */
  lemma HeldSet<V>(w: World<V>, k: nat, v: V, turns: seq<Turn<V>>, f: nat, j: nat, z: V)
    requires Held(w, f, j, z) && k < j && v != z
    ensures var x := SetTo(w, k, v, turns).world; StillHeld(w, x, f, j, z) && Moved(x, j, z)
  {
    SetToKeeps(w, k, v, turns);
    hide Notice, Attached, NotAhead;
    var i := w.inputs[k];
    assert i.list.currentIndex == -1;
    if i.value != v {
      assert |i.list.callbacks| == 1 by { HeardInput(w, k); }
      var w1 := w.(inputs := w.inputs[k := Input(v, i.list.(n := 1))]);
      var w2 := InputNext(w1, k);
      NoticeIs(w2, k, v, FirstTurn(turns));
      var r := Notice(w2, k, v, FirstTurn(turns));
      assert r.threw && InputPass(w1, k, v, turns) == r;
      var x := InputRests(r.world, k);
      assert x.inputs[k].value == v && x.inputs[j] == w.inputs[j];
      assert Held(x, f, j, z) by { assert x == SetTo(w, k, v, turns).world; }
    }
  }

  lemma HeardInput<V>(w: World<V>, k: nat)
    requires Attached(w) && w.Heard() && k < |w.inputs|
    ensures |w.inputs[k].list.callbacks| == 1
  {
  }

  lemma HeldAct<V>(w: World<V>, a: Action<V>, f: nat, j: nat, z: V)
    requires Held(w, f, j, z) && Leaves(a, f, j, z)
    ensures var r := Perform(w, a);
            && StillHeld(w, r.world, f, j, z) && (a.SetInput? ==> Moved(r.world, j, z))
            && (r.threw ==> a.Fail? || Moved(r.world, j, z))
  {
    hide Held, Moved, Heed, Heeded, Leaving, SetTo;
    assert w.Formed() && j < |w.inputs| by { HeldFormed(w, f, j, z); }
    match a
    case SetInput(k, v, caught, turns) => HeldSet(w, k, v, turns, f, j, z);
    case Listen(cb) =>
      HeedWorks(w, cb);
      HeldListen(w, cb, f, j, z);
    case Stop(cb) => HeldStop(w, cb, f, j, z);
    case Fail =>
  }

  lemma HeldFormed<V>(w: World<V>, f: nat, j: nat, z: V)
    requires Held(w, f, j, z)
    ensures w.Formed() && j < |w.inputs|
  {
  }

  lemma {:induction false} HeldScript<V>(w: World<V>, s: seq<Action<V>>, f: nat, j: nat, z: V)
    requires Held(w, f, j, z) && AllLeave(s, f, j, z)
    ensures w.Formed()
    ensures var x := RunScript(w, s).world; StillHeld(w, x, f, j, z) && (!Calm(s) ==> Moved(x, j, z))
    decreases |s|
  {
    hide Held, Moved, Perform, World.Formed, Leaves;
    HeldFormed(w, f, j, z);
    if s != [] {
      HeldAct(w, s[0], f, j, z);
      var r := Perform(w, s[0]);
      if !r.threw { HeldScript(r.world, s[1..], f, j, z); }
    }
  }

  /** Listeners without scripts change nothing. */
  lemma {:induction false} SilentPass<V>(w: World<V>, record: seq<V>)
    requires w.Formed()
    ensures var r := DataPass(w, record, []);
            && r.world.inputs == w.inputs && r.world.value == w.value && r.world.data.callbacks == w.data.callbacks
            && r.world.current == w.current && r.world.published == w.published && !r.threw
    decreases O.Left(w.data)
  {
    if w.data.currentIndex < w.data.n - 1 {
      var w1 := CallNext(w, record);
      NoScript(w1);
      SilentPass(w1, record);
    }
  }

  /** Two listeners, the second one with a script. */
  lemma SecondRuns<V>(w: World<V>, record: seq<V>, s: seq<Action<V>>)
    requires w.Formed() && w.data.currentIndex == -1 && w.data.n == 2 == |w.data.callbacks|
    ensures var w1 := CallNext(w, record);
            && w1.data.currentIndex == 0 && w1.data.n == 2 && w1.Formed()
            && var w2 := CallNext(w1, record);
            && var r := RunScript(w2, s);
            DataPass(w, record, [Script([]), Script(s)]) == if r.threw then r else DataPass(r.world, record, [])
  {
    hide RunScript;
    var w1 := CallNext(w, record);
    NoScript(w1);
    var scripts := [Script([]), Script(s)];
    assert scripts[1..] == [Script(s)] && scripts[1..][1..] == [];
  }

  /** The world in which two listeners have come, and input `j` has been set. */
  ghost predicate Ready<V>(w: World<V>, f: nat, j: nat, z: V)
  {
    && Attached(w) && Idle(w) && w.data.callbacks == [f, f] && Steady(w) && j < |w.inputs|
    && forall i :: 0 <= i <= j ==> w.inputs[i].value == z
  }

  /** While input `j` is told, the second listener moves another input: the record stays behind. */
  lemma Breaks<V>(w: World<V>, s: seq<Action<V>>, f: nat, j: nat, y: V, z: V)
    requires Ready(w, f, j, z) && y != z && AllLeave(s, f, j, z) && !Calm(s)
    ensures var x := SetTo(w, j, y, [Turn([Script([]), Script(s)])]).world; x.Heard() && x.value != x.Values()
  {
    var turns := [Turn([Script([]), Script(s)])];
    var i := w.inputs[j];
    assert |i.list.callbacks| == 1;
    var w1 := w.(inputs := w.inputs[j := Input(y, i.list.(n := 1))]);
    var w2 := InputNext(w1, j);
    assert Attached(w2);
    var now := w2.current[j := y];
    NoticeIs(w2, j, y, FirstTurn(turns));
    hide Notice, RunScript, DataPass;
    var t := Telling(w2, now);
    SecondRuns(t, now, s);
    var t2 := CallNext(CallNext(t, now), now);
    assert Held(t2, f, j, z) by { TellingHeld(w, j, y, f, z); }
    HeldScript(t2, s, f, j, z);
    var r := RunScript(t2, s);
    SilentPass(r.world, now);
    var x := Notice(w2, j, y, FirstTurn(turns));
    assert O.Left(x.world.inputs[j].list) == 0;
    LastCall(w1, j, y, turns);
    assert InputPass(w1, j, y, turns) == x;
    StaysBehind(r.world, InputRests(x.world, j), f, j, z);
  }

  lemma TellingHeld<V>(w: World<V>, j: nat, y: V, f: nat, z: V)
    requires Ready(w, f, j, z)
    ensures var i := w.inputs[j];
            var w2 := InputNext(w.(inputs := w.inputs[j := Input(y, i.list.(n := 1))]), j);
            var now := w2.current[j := y];
            var t := Telling(w2, now);
            && t.Formed() && t.data.n == 2 && t.data.currentIndex == -1
            && var t1 := CallNext(t, now);
            t1.data.currentIndex == 0 && t1.data.n == 2 && Held(CallNext(t1, now), f, j, z)
  {
    assert |w.inputs[j].list.callbacks| == 1;
    assert forall i :: 0 <= i < |w.inputs| ==> w.value[i] == w.Values()[i] == w.inputs[i].value;
  }

  lemma StaysBehind<V>(w: World<V>, x: World<V>, f: nat, j: nat, z: V)
    requires Held(w, f, j, z) && Moved(w, j, z)
    requires x.value == w.value && x.data.callbacks == w.data.callbacks && |x.inputs| == |w.inputs|
    requires forall i :: 0 <= i < j ==> x.inputs[i].value == w.inputs[i].value
    ensures x.Heard() && x.value != x.Values()
  {
    var i :| 0 <= i < j && w.inputs[i].value != z;
    assert x.value[i] == z && x.Values()[i] == w.inputs[i].value;
  }

  /** No action names an input or a listener at or above `n`. */
  ghost predicate Below<V>(s: seq<Action<V>>, n: nat)
  {
    forall i :: 0 <= i < |s| ==> match s[i] case SetInput(k, _, _, _) => k < n case Stop(cb) => cb < n case _ => true
  }

  lemma {:induction false} SomeBound<V>(s: seq<Action<V>>) returns (n: nat)
    ensures Below(s, n)
    decreases |s|
  {
    n := 0;
    if s != [] {
      var m := SomeBound(s[1..]);
      n := 1 + m + (match s[0] case SetInput(k, _, _, _) => k case Stop(cb) => cb case _ => 0);
      assert forall i :: 1 <= i < |s| ==> s[i] == s[1..][i - 1];
    }
  }

  ghost predicate NeverSets<V>(s: seq<Action<V>>, z: V)
  {
    forall i :: 0 <= i < |s| && s[i].SetInput? ==> s[i].value != z
  }

  lemma {:induction false} SetsSomething<V>(s: seq<Action<V>>) returns (i: nat)
    requires !Calm(s)
    ensures i < |s| && s[i].SetInput?
    decreases |s|
  {
    i := 0;
    if !s[0].SetInput? {
      var k := SetsSomething(s[1..]);
      i := k + 1;
    }
  }

  /** Two listeners have come. */
  lemma TwoCome<V>(values: seq<V>, f: nat, j: nat, z: V)
    requires j < |values| && forall i :: 0 <= i <= j ==> values[i] == z
    ensures Ready(RunTop(Start(values), [Listen(f), Listen(f)]), f, j, z)
  {
    hide Perform;
    var program := [Listen(f), Listen(f)];
    assert program[..1] == [Listen(f)] && program[..1][..0] == [];
    StartIsGood(values);
    var w := Start(values);
    HeedActs(w, f);
    var w1 := Heeded(w, f);
    assert RunTop(w, program[..1]) == w1;
    HeedActs(w1, f);
    SubscribedWhileHeard(values, program);
    assert RunTop(w, program) == Heeded(w1, f);
    assert Heeded(w1, f).Values() == w.Values();
  }

  lemma HeedActs<V>(w: World<V>, cb: nat)
    requires w.Formed()
    ensures Perform(w, Listen(cb)) == After(Heeded(w, cb), false)
  {
    hide Heed, Heeded;
    HeedWorks(w, cb);
  }

  /** When listeners are told, they do nothing or run this script. */
  ghost predicate Uses<V>(a: Action<V>, s: seq<Action<V>>)
  {
    a.SetInput? ==> forall t, sc :: t in a.turns && sc in t.scripts ==> sc.actions == [] || sc.actions == s
  }

  ghost predicate AllUse<V>(program: seq<Action<V>>, s: seq<Action<V>>)
  {
    forall a :: a in program ==> Uses(a, s)
  }

  ghost predicate StaysCurrent<V>(w: World<V>)
  {
    w.Heard() ==> w.value == w.Values()
  }

  lemma UsesCalm<V>(a: Action<V>, s: seq<Action<V>>)
    requires Uses(a, s) && Calm(s)
    ensures Tame(a)
  {
    NothingIsCalm<V>();
    hide Calm;
  }

  /** A program after which the record is behind, for any script that sets an input before it fails. */
  lemma CounterProgram<V>(s: seq<Action<V>>, z: V) returns (values: seq<V>, program: seq<Action<V>>)
    requires !Calm(s) && NeverSets(s, z)
    ensures AllUse(program, s) && !StaysCurrent(RunTop(Start(values), program))
  {
    hide Perform, Calm;
    var n := SomeBound(s);
    var i := SetsSomething(s);
    var y := s[i].value;
    values := seq(n + 1, _ => z);
    var set_ := SetInput(n, y, true, [Turn([Script([]), Script(s)])]);
    program := [Listen(n), Listen(n), set_];
    assert program[..2] == [Listen(n), Listen(n)];
    TwoCome(values, n, n, z);
    var w := RunTop(Start(values), program[..2]);
    assert AllLeave(s, n, n, z);
    Breaks(w, s, n, n, y, z);
    SetActs(w, n, y, set_.turns);
    assert RunTop(Start(values), program) == Perform(w, set_).world;
  }

  lemma SetActs<V>(w: World<V>, k: nat, v: V, turns: seq<Turn<V>>)
    requires w.Formed() && k < |w.inputs|
    ensures Perform(w, SetInput(k, v, true, turns)).world == SetTo(w, k, v, turns).world
  {
    hide SetTo;
  }

  /** What listeners may do when they are told: as long as there is a value their script never sets, the record is
      current for whoever listens after every program exactly when the script sets no input before it fails. */
  lemma CurrentIff<V>(s: seq<Action<V>>, z: V)
    requires NeverSets(s, z)
    ensures Calm(s) <==> forall values, program :: AllUse(program, s) ==> StaysCurrent(RunTop<V>(Start(values), program))
  {
    if Calm(s) {
      forall values, program | AllUse(program, s) ensures StaysCurrent(RunTop<V>(Start(values), program)) {
        forall a | a in program ensures Tame(a) { UsesCalm(a, s); }
        RecordIsCurrent(values, program);
      }
    } else {
      var values, program := CounterProgram(s, z);
    }
  }

  /** Whether the first listener to come back finds the inputs' record: not when the missed one had been noted already. */
  lemma RepairedIff<V>(w: World<V>, cb: nat)
    requires w.Formed() && !w.Heard()
    ensures Heed(w, cb).world.value == Heed(w, cb).world.Values() <==> w.value == w.Values() || w.published != w.Values()
  {
    hide Heed;
    HeedWorks(w, cb);
    assert Heeded(w, cb).Values() == w.Values();
  }

  // ------------------------------------------------------------------ a run that leaves the record behind

  /** One listener and two inputs, once subscribed; `told` is the listener's list. */
  function Pair<V>(x: Input<V>, y: Input<V>, told: O.Counters, value: seq<V>, noted: seq<V>, records: seq<seq<V>>,
                   calls: seq<Call<V>>): World<V>
  {
    World([x, y], told, value, noted, noted, Some(0), 1, records, calls)
  }

  const NotTelling := O.Counters([0], -1, 1, false)
  const Telling1 := O.Counters([0], 0, 1, false)

  lemma FirstListener<V>(a: V, b: V)
    ensures var c := O.Counters([0], -1, 0, false);
            Heeded(Start([a, b]), 1)
            == Pair(Input(a, c), Input(b, c), O.Counters([1], -1, 0, false), [a, b], [a, b], [], [Call(1, [a, b])])
  {
    var w := Start([a, b]);
    assert w.Values() == [a, b];
    var c := O.Counters([0], -1, 0, false);
    var none := O.Counters([], -1, 0, false);
    assert none.callbacks + [0] == [0];
    assert Joined(none, 0) == c;
    assert JoinAll(w.inputs, 0) == [Input(a, c), Input(b, c)];
    assert w.data.callbacks + [1] == [1];
  }

  /** Told of a record, the listener sets the other input: that is noted, and the error is caught. */
  lemma InnerSet<V>(w: World<V>, b2: V)
    requires w.Formed() && |w.inputs| == 2 && w.data.currentIndex == 0
    requires w.inputs[1].list.callbacks == [0] && w.inputs[1].list.currentIndex == -1 && w.inputs[1].value != b2
    ensures var now := w.current[1 := b2];
            RunScript(w, [SetInput(1, b2, true, [])])
            == After(w.(inputs := w.inputs[1 := Input(b2, NotTelling)], current := now, published := now), false)
  {
    hide Notice;
    var w1 := w.(inputs := w.inputs[1 := Input(b2, NotTelling)]);
    var w2 := InputNext(w1, 1);
    NoticeIs(w2, 1, b2, []);
    var r := Notice(w2, 1, b2, []);
    assert InputPass(w1, 1, b2, []) == r;
    assert InputRests(r.world, 1).inputs == w.inputs[1 := Input(b2, NotTelling)];
    var now := w.current[1 := b2];
    var x := w.(inputs := w.inputs[1 := Input(b2, NotTelling)], current := now, published := now);
    assert SetTo(w, 1, b2, []) == After(x, true);
    var s := [SetInput(1, b2, true, [])];
    assert s[1..] == [];
    assert Perform(w, s[0]) == After(x, false);
    NoScript(x);
  }

  lemma OuterSet<V>(a: V, b: V, a2: V, b2: V, records: seq<seq<V>>, calls: seq<Call<V>>)
    requires a2 != a && b2 != b
    ensures var c := O.Counters([0], -1, 0, false);
            var w := Pair(Input(a, c), Input(b, c), O.Counters([1], -1, 0, false), [a, b], [a, b], records, calls);
            w.Formed() && SetTo(w, 0, a2, [Turn([Script([SetInput(1, b2, true, [])])])])
            == After(Pair(Input(a2, NotTelling), Input(b2, NotTelling), O.Counters([1], -1, 1, false), [a2, b], [a2, b2],
                           records + [[a2, b]], calls + [Call(1, [a2, b])]), false)
  {
    hide Notice, DataPass, RunScript;
    var c := O.Counters([0], -1, 0, false);
    var w := Pair(Input(a, c), Input(b, c), O.Counters([1], -1, 0, false), [a, b], [a, b], records, calls);
    var turns := [Turn([Script([SetInput(1, b2, true, [])])])];
    var w1 := w.(inputs := w.inputs[0 := Input(a2, NotTelling)]);
    var w2 := InputNext(w1, 0);
    assert w2.inputs == [Input(a2, Telling1), Input(b, c)];
    NoticeIs(w2, 0, a2, FirstTurn(turns));
    var now := [a2, b];
    assert w2.current[0 := a2] == now;
    var t := Telling(w2, now);
    InnerTold(t, b2, FirstTurn(turns), calls);
    var r := Notice(w2, 0, a2, FirstTurn(turns));
    assert r.world.inputs[0].list == Telling1;
    LastCall(w1, 0, a2, turns);
    assert InputRests(r.world, 0).inputs == [Input(a2, NotTelling), Input(b2, NotTelling)];
  }

  /** The listener's one call. */
  lemma InnerTold<V>(t: World<V>, b2: V, scripts: seq<Script<V>>, calls: seq<Call<V>>)
    requires t.Formed() && |t.inputs| == 2 && t.data == O.Counters([1], -1, 1, false) && t.calls == calls
    requires t.inputs[1].list.callbacks == [0] && t.inputs[1].list.currentIndex == -1 && t.inputs[1].value != b2
    requires scripts == [Script([SetInput(1, b2, true, [])])]
    ensures var noted := t.current[1 := b2];
            DataPass(t, t.value, scripts)
            == After(t.(inputs := t.inputs[1 := Input(b2, NotTelling)], current := noted, published := noted,
                         data := O.Counters([1], 0, 1, false), calls := calls + [Call(1, t.value)]), false)
  {
    hide RunScript;
    var t1 := CallNext(t, t.value);
    InnerSet(t1, b2);
  }

  lemma LetGo<V>(w: World<V>, x: V, y: V)
    requires w.inputs == [Input(x, NotTelling), Input(y, NotTelling)] && w.data == O.Counters([1], -1, 1, false) && w.sub == Some(0)
    requires w.Formed()
    ensures var v := Leaving(w, 1);
            !v.Heard() && v.value == w.value && v.published == w.published && v.current == w.current && v.Values() == [x, y]
  {
    assert O.IndexOf([1], 1) == 0;
    assert O.RemoveAt([1], 0) == [];
    var v := Leaving(w, 1);
    assert v.inputs == PartAll(w.inputs, 0);
    assert v.Values() == [x, y];
  }

  /** Inputs `a` and `b`, one listener: when `a` is set, the listener sets `b` and catches the error. The combined record keeps
      the old `b`, and it still does when the listener goes and comes back. */
  lemma StaleRecord<V>(a: V, b: V, a2: V, b2: V)
    requires a2 != a && b2 != b
    ensures var program := [Listen(1), SetInput(0, a2, true, [Turn([Script([SetInput(1, b2, true, [])])])])];
            var w, x := RunTop(Start([a, b]), program), RunTop(Start([a, b]), program + [Stop(1), Listen(1)]);
            && w.Heard() && w.value == [a2, b] && w.Values() == [a2, b2]
            && x.Heard() && x.value == [a2, b] && x.Values() == [a2, b2]
  {
    hide Perform, Heed, Heeded, SetTo, Leaving, Start;
    var set_ := SetInput(0, a2, true, [Turn([Script([SetInput(1, b2, true, [])])])]);
    var start, program := Start([a, b]), [Listen(1), set_];
    var all := program + [Stop(1), Listen(1)];
    assert program[..1] == [Listen(1)] && program[..1][..0] == [];
    assert all[..3] == program + [Stop(1)] && (program + [Stop(1)])[..2] == program;
    HeedActs(start, 1);
    FirstListener(a, b);
    OuterSet(a, b, a2, b2, [], [Call(1, [a, b])]);
    SetActs(Heeded(start, 1), 0, a2, set_.turns);
    assert RunTop(start, program[..1]) == Heeded(start, 1);
    assert program[1] == set_;
    var w := RunTop(start, program);
    assert w == Perform(RunTop(start, program[..1]), set_).world;
    assert w == SetTo(Heeded(start, 1), 0, a2, set_.turns).world;
    LetGo(w, a2, b2);
    StopActs(w, 1);
    var v := RunTop(start, all[..3]);
    assert v == Leaving(w, 1);
    HeedActs(v, 1);
    ComesBack(v);
    assert RunTop(start, all) == Heeded(v, 1);
  }

  lemma StopActs<V>(w: World<V>, cb: nat)
    requires w.Formed()
    ensures Perform(w, Stop(cb)).world == Leaving(w, cb)
  {
    hide Leaving;
  }

  lemma ComesBack<V>(w: World<V>)
    requires w.Formed() && !w.Heard() && w.published == w.Values()
    ensures var x := Heeded(w, 1); x.Heard() && x.value == w.value && x.Values() == w.Values()
  {
    assert Heeded(w, 1).Values() == w.Values();
  }
}

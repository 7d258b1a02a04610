/** Who is called with a new record: the line of listeners goes on as a pass of an observable does. */
module CombineCalls {
  import opened Wrappers
  import opened Combine
  import opened CombineRuns
  import O = Observable

  /** A listener that only goes, or fails. */
  ghost predicate Departs<V>(s: seq<Action<V>>)
  {
    forall a :: a in s ==> a.Stop? || a.Fail?
  }

  ghost predicate AllDepart<V>(scripts: seq<Script<V>>)
  {
    forall s :: s in scripts ==> Departs(s.actions)
  }

  /** The same script, for a subscriber of an observable. */
  ghost function AsScript<V>(s: seq<Action<V>>): seq<O.Action>
    requires Departs(s)
  {
    if s == [] then [] else [match s[0] case Stop(cb) => O.Unsubscribe(cb) case _ => O.Throw] + AsScript(s[1..])
  }

  ghost function AsScripts<V>(scripts: seq<Script<V>>): seq<seq<O.Action>>
    requires AllDepart(scripts)
  {
    if scripts == [] then [] else assert scripts[0] in scripts; [AsScript(scripts[0].actions)] + AsScripts(scripts[1..])
  }

  function CallsOf<V>(cbs: seq<nat>, record: seq<V>): seq<Call<V>>
  {
    seq(|cbs|, i requires 0 <= i < |cbs| => Call(cbs[i], record))
  }

  lemma PartsAs<V>(w: World<V>, cb: nat)
    requires w.Formed()
    ensures var r := O.Count(w.data, O.Unsubscribe(cb));
            Leaving(w, cb).data == r.counters && !r.threw && Leaving(w, cb).calls == w.calls
  {
  }

  lemma {:induction false} ScriptAs<V>(w: World<V>, s: seq<Action<V>>)
    requires w.Formed() && Departs(s)
    ensures var r, t := RunScript(w, s), O.CountTurn(w.data, AsScript(s));
            r.world.data == t.counters && r.threw == t.threw && r.world.calls == w.calls
    decreases |s|
  {
    hide Leaving, O.Count;
    if s == [] {
      NoScript(w);
    } else {
      assert s[0] in s && forall a :: a in s[1..] ==> a in s;
      match s[0]
      case Stop(cb) =>
        PartsAs(w, cb);
        ScriptAs(Leaving(w, cb), s[1..]);
        assert Perform(w, s[0]) == After(Leaving(w, cb), false);
      case Fail =>
        FailsAs(w.data);
        assert Perform(w, s[0]) == After(w, true);
    }
  }

  lemma FailsAs(c: O.Counters)
    requires c.Valid()
    ensures O.Count(c, O.Throw) == O.Counted(c, true)
  {
  }

  /** The listeners are called like the subscribers of an observable in a pass with the same scripts. */
  lemma {:induction false} PassAs<V>(w: World<V>, record: seq<V>, scripts: seq<Script<V>>)
    requires w.Formed() && AllDepart(scripts)
    ensures var r, p := DataPass(w, record, scripts), O.CountPass(w.data, AsScripts(scripts));
            r.world.data == p.counters && r.threw == p.threw && r.world.calls == w.calls + CallsOf(p.calls, record)
    decreases O.Left(w.data)
  {
    hide RunScript, O.CountTurn, Departs, AsScript;
    if w.data.currentIndex >= w.data.n - 1 {
      assert w.calls + CallsOf([], record) == w.calls;
    } else {
      var w1 := CallNext(w, record);
      var s := FirstScript(scripts);
      FirstAs(scripts);
      ScriptAs(w1, s);
      var r := RunScript(w1, s);
      var cb := w.data.callbacks[w.data.currentIndex + 1];
      O.CountTurnLeft(O.Advance(w.data), O.Script(AsScripts(scripts)));
      var p := O.CountPass(w.data, AsScripts(scripts));
      if r.threw {
        assert CallsOf([cb], record) == [Call(cb, record)];
      } else {
        PassAs(r.world, record, Others(scripts));
        var rest := O.CountPass(r.world.data, AsScripts(Others(scripts))).calls;
        assert p.calls == [cb] + rest;
        assert w.calls + CallsOf([cb] + rest, record) == (w.calls + [Call(cb, record)]) + CallsOf(rest, record);
      }
    }
  }

  lemma FirstAs<V>(scripts: seq<Script<V>>)
    requires AllDepart(scripts)
    ensures Departs(FirstScript(scripts)) && O.Script(AsScripts(scripts)) == AsScript(FirstScript(scripts))
    ensures AllDepart(Others(scripts)) && O.Rest(AsScripts(scripts)) == AsScripts(Others(scripts))
  {
    if scripts != [] { assert scripts[0] in scripts; }
  }

  lemma DepartIsCalm<V>(s: seq<Action<V>>)
    requires Departs(s)
    ensures Calm(s)
    decreases |s|
  {
    if s != [] {
      assert s[0] in s && forall a :: a in s[1..] ==> a in s;
      DepartIsCalm(s[1..]);
    }
  }

  lemma AllDepartCalm<V>(scripts: seq<Script<V>>)
    requires AllDepart(scripts)
    ensures AllCalm(scripts)
  {
    forall s | s in scripts ensures Calm(s.actions) { DepartIsCalm(s.actions); }
  }

  /** An input that changes calls the listeners with the record of the inputs as they are now: the line of them, as long as they only
      go or fail when they are called, goes on like a pass of an observable. */
  lemma ListenersTold<V>(w: World<V>, k: nat, v: V, caught: bool, turns: seq<Turn<V>>)
    requires Good(w) && w.Heard() && k < |w.inputs| && w.inputs[k].value != v && AllDepart(FirstTurn(turns))
    ensures O.Counters(w.data.callbacks, -1, |w.data.callbacks|, false).Valid()
    ensures var p := O.CountPass(O.Counters(w.data.callbacks, -1, |w.data.callbacks|, false), AsScripts(FirstTurn(turns)));
            Perform(w, SetInput(k, v, caught, turns)).world.calls == w.calls + CallsOf(p.calls, w.Values()[k := v])
  {
    hide Notice, DataPass, AllDepart, O.CountPass, AsScripts;
    var scripts := FirstTurn(turns);
    AllDepartCalm(scripts);
    var i := w.inputs[k];
    HeardInput(w, k);
    var w1 := w.(inputs := w.inputs[k := Input(v, i.list.(n := |i.list.callbacks|))]);
    var w2 := InputNext(w1, k);
    assert w2.Values() == w.Values()[k := v];
    assert w2.current[k := v] == w2.Values();
    assert Attached(w1) && Attached(w2);
    NoticeIs(w2, k, v, scripts);
    CalmNotice(w2, k, v, scripts);
    var t := Telling(w2, w2.Values());
    PassAs(t, w2.Values(), scripts);
    assert t.data == O.Counters(w.data.callbacks, -1, |w.data.callbacks|, false);
    assert O.Left(w2.inputs[k].list) == 0;
    LastCall(w1, k, v, turns);
    var r := Notice(w2, k, v, scripts);
    assert SetTo(w, k, v, turns).world == InputRests(r.world, k);
    assert r.world.calls == w.calls + CallsOf(O.CountPass(t.data, AsScripts(scripts)).calls, w.Values()[k := v]);
  }

  /** Listeners that do nothing are all called, in order. */
  lemma EveryoneTold<V>(w: World<V>, k: nat, v: V, caught: bool)
    requires Good(w) && w.Heard() && k < |w.inputs| && w.inputs[k].value != v
    ensures Perform(w, SetInput(k, v, caught, [])).world.calls == w.calls + CallsOf(w.data.callbacks, w.Values()[k := v])
  {
    hide Perform, Good;
    ListenersTold(w, k, v, caught, []);
    var c := O.Counters(w.data.callbacks, -1, |w.data.callbacks|, false);
    O.QuietPass(c);
    assert c.callbacks[0..|c.callbacks|] == c.callbacks;
  }

  /** And who comes to listen is called at once. */
  lemma ComerTold<V>(w: World<V>, cb: nat)
    requires Good(w)
    ensures Perform(w, Listen(cb)).world.calls == w.calls + [Call(cb, w.Values())]
  {
    hide Subscribed;
    HeedWorks(w, cb);
    if !w.Heard() { CatchesUp(w); }
  }

  lemma CatchesUp<V>(w: World<V>)
    requires Good(w) && !w.Heard()
    ensures Subscribed(w).value == w.Values() && Subscribed(w).calls == w.calls
  {
  }
}

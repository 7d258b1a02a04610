/**
 Values mapped from an observable value: each layer caches what it computed together with the change id it
 computed it for, and its subscriptions pass on only values that differ from the one before.
 */
module Mapped {
  import opened Wrappers
  import opened Observable

  /** A value derived from the root, or from another derived value. */
  class SubDataController<T(==)> {
    const root: MutableValueImpl<T>
    const source: SubDataController?<T>
    const getter: T -> T
    var cachedChangeId: int
    var cachedValue: Option<T>
    ghost const chain: set<SubDataController<T>>

    /** The objects from here to the root. */
    ghost predicate Linked()
      decreases chain
    {
      && this in chain
      && (source == null ==> chain == {this})
      && (source != null ==> source.root == root && chain == source.chain + {this} && this !in source.chain && source.Linked())
    }

    /** The getters applied one after the other. */
    ghost function Apply(v: T): T
      requires Linked()
      decreases chain
    {
      getter(if source == null then v else source.Apply(v))
    }

    /** What a read from the root up would give. */
    ghost function Recomputed(): T
      requires Linked()
      reads root
    {
      Apply(root.currentValue)
    }

    /** Every cache that claims to be current is. */
    ghost predicate Valid()
      reads chain, root
      decreases chain
    {
      && Linked()
      && cachedChangeId <= root.changeId
      && (cachedChangeId == root.changeId ==> cachedValue == Some(Recomputed()))
      && (source != null ==> source.Valid())
    }

    constructor (root: MutableValueImpl<T>, source: SubDataController?<T>, getter: T -> T)
      requires source != null ==> source.Valid() && source.root == root
      ensures Valid() && this.root == root && this.source == source && this.getter == getter
      ensures chain == {this} + (if source == null then {} else source.chain)
    {
      this.root := root;
      this.source := source;
      this.getter := getter;
      cachedChangeId := -1;
      cachedValue := None;
      chain := {this} + (if source == null then {} else source.chain);
    }

    /** The cached value when it is current, a new one otherwise. */
    method GetTransformed() returns (value: T)
      requires Valid()
      modifies chain
      ensures Valid() && value == Recomputed() && cachedChangeId == root.changeId && cachedValue == Some(value)
      decreases chain
    {
      var id := root.changeId;
      if cachedChangeId == id { return cachedValue.value; }
      var original := root.currentValue;
      if source != null {
        original := source.GetTransformed();
      }
      value := getter(original);
      cachedChangeId := id;
      cachedValue := Some(value);
    }
  }

  /** A change of the root under a new id leaves every cache sound; so does no change at all. */
  twostate lemma CachesStaySound<T>(d: SubDataController<T>)
    requires old(d.Valid())
    requires d.root.changeId > old(d.root.changeId) ||
             (d.root.changeId == old(d.root.changeId) && d.root.currentValue == old(d.root.currentValue))
    requires forall c :: c in d.chain ==> c.cachedChangeId == old(c.cachedChangeId) && c.cachedValue == old(c.cachedValue)
    ensures d.Valid()
    decreases d.chain
  {
    assert d in d.chain;
    if d.source != null { CachesStaySound(d.source); }
  }

  /** Setting the root: the derived value is from then on that of the new root value. */
  method SetRoot<T(==)>(d: SubDataController<T>, value: T, scripts: seq<seq<Action>>) returns (r: Outcome, calls: seq<nat>)
    requires d.Valid() && d.root.currentIndex == -1 && !d.root.disposed
    modifies d.root
    ensures d.Valid() && d.Recomputed() == d.Apply(value)
  {
    hide CountPass;
    r, calls := d.root.SetValue(value, scripts);
    CachesStaySound(d);
  }

  // ------------------------------------------------------------------ subscriptions

  /** Consecutive repeats removed. */
  function Changes<T(==)>(s: seq<T>): seq<T>
  {
    if s == [] then []
    else
      var n := |s| - 1;
      Changes(s[..n]) + (if n == 0 || s[n] != s[n - 1] then [s[n]] else [])
  }

  ghost function Images<T>(d: SubDataController<T>, s: seq<T>): (r: seq<T>)
    requires d.Linked()
    ensures |r| == |s|
  {
    seq(|s|, i requires 0 <= i < |s| => d.Apply(s[i]))
  }

  /** A subscription on a derived value; `inner` is the one it holds on the value's source. */
  class Subscription<T(==)> {
    const data: SubDataController<T>
    const inner: Subscription?<T>
    var firstCall: bool
    var previous: Option<T>
    ghost var seen: seq<T>
    ghost var emitted: seq<T>
    ghost const parts: set<Subscription<T>>

    /** The subscriptions from here to the root match the values they are on. */
    ghost predicate Linked()
      decreases parts
    {
      && data.Linked() && this in parts
      && (inner == null <==> data.source == null)
      && (inner == null ==> parts == {this})
      && (inner != null ==> inner.data == data.source && parts == inner.parts + {this} && this !in inner.parts && inner.Linked())
    }

    /** This one has passed on what it should. */
    ghost predicate Kept()
      requires Linked()
      reads this
    {
      && (firstCall <==> seen == [])
      && (seen != [] ==> previous == Some(data.Apply(seen[|seen| - 1])))
      && emitted == Changes(Images(data, seen))
    }

    ghost predicate Valid()
      reads parts
      decreases parts
    {
      Linked() && Kept() && (inner != null ==> inner.Valid() && inner.seen == seen)
    }

    constructor (data: SubDataController<T>, inner: Subscription?<T>)
      requires data.Linked() && (inner == null <==> data.source == null)
      requires inner != null ==> inner.Valid() && inner.data == data.source && inner.seen == []
      ensures Valid() && this.data == data && this.inner == inner && seen == [] && emitted == []
      ensures parts == {this} + (if inner == null then {} else inner.parts)
    {
      this.data := data;
      this.inner := inner;
      firstCall := true;
      previous := None;
      seen, emitted := [], [];
      parts := {this} + (if inner == null then {} else inner.parts);
    }

    /** The root calls: either this subscription's callback gets the new value, or nothing changed for it. What
        has been passed on is always the mapped root values without consecutive repeats. */
    method Deliver() returns (value: Option<T>)
      requires Valid() && data.Valid()
      modifies parts, data.chain
      ensures Valid() && data.Valid()
      ensures seen == old(seen) + [data.root.currentValue]
      ensures emitted == old(emitted) + (match value case None => [] case Some(v) => [v])
      ensures value.Some? ==> value.value == data.Recomputed()
      ensures value.None? <==> old(seen) != [] && data.Apply(old(seen)[|old(seen)| - 1]) == data.Recomputed()
      decreases parts
    {
      hide Changes, Images, SubDataController.Apply;
      ghost var now := data.root.currentValue;
      var called := true;
      if inner != null {
        SameImage(data, seen, now);
        var outer := inner.Deliver();
        called := outer.Some?;
      }
      value := PassOn(called);
    }

    /** The source has called, or not. */
    method PassOn(called: bool) returns (value: Option<T>)
      requires Linked() && Kept() && data.Valid()
      requires !called ==> seen != [] && data.Apply(seen[|seen| - 1]) == data.Recomputed()
      modifies this, data.chain
      ensures Kept() && data.Valid()
      ensures seen == old(seen) + [data.root.currentValue]
      ensures emitted == old(emitted) + (match value case None => [] case Some(v) => [v])
      ensures value.Some? ==> value.value == data.Recomputed()
      ensures value.None? <==> old(seen) != [] && data.Apply(old(seen)[|old(seen)| - 1]) == data.Recomputed()
    {
      hide Changes, Images, SubDataController.Apply;
      OneMore(data, seen, data.root.currentValue);
      value := None;
      if called {
        var newValue := data.GetTransformed();
        if firstCall || Some(newValue) != previous {
          value := Some(newValue);
          firstCall := false;
          previous := Some(newValue);
        }
      }
      seen := seen + [data.root.currentValue];
      emitted := emitted + (match value case None => [] case Some(v) => [v]);
    }
  }

  /** Equal source values have equal images. */
  lemma SameImage<T>(d: SubDataController<T>, s: seq<T>, v: T)
    requires d.Linked() && d.source != null
    ensures s != [] && d.source.Apply(s[|s| - 1]) == d.source.Apply(v) ==> d.Apply(s[|s| - 1]) == d.Apply(v)
  {
  }

  lemma OneMore<T>(d: SubDataController<T>, s: seq<T>, v: T)
    requires d.Linked()
    ensures Changes(Images(d, s + [v])) == Changes(Images(d, s)) + (if s == [] || d.Apply(s[|s| - 1]) != d.Apply(v) then [d.Apply(v)] else [])
  {
    var t := Images(d, s + [v]);
    assert t[..|s|] == Images(d, s);
    assert t[|s|] == d.Apply(v);
  }

  /** What is passed on holds no two equal neighbours, and starts and ends like the values seen. */
  lemma {:induction false} NoRepeats<T>(s: seq<T>)
    ensures var c := Changes(s);
            && (forall i :: 0 < i < |c| ==> c[i] != c[i - 1])
            && (s == [] <==> c == [])
            && (s != [] ==> c[0] == s[0] && c[|c| - 1] == s[|s| - 1])
  {
    if s != [] {
      var n := |s| - 1;
      NoRepeats(s[..n]);
    }
  }

  // ------------------------------------------------------------------ whole runs

  /** Removing repeats first makes no difference to what is left of the images. */
  lemma {:induction false} ChangesTwice<T>(d: SubDataController<T>, s: seq<T>)
    requires d.Linked()
    ensures Changes(Images(d, Changes(s))) == Changes(Images(d, s))
  {
    hide SubDataController.Apply, Images;
    if s != [] {
      var n := |s| - 1;
      ChangesTwice(d, s[..n]);
      NoRepeats(s[..n]);
      var c := Changes(s[..n]);
      assert s == s[..n] + [s[n]];
      OneMore(d, s[..n], s[n]);
      OneMore(d, c, s[n]);
      if n > 0 && s[n] == s[n - 1] { assert c + [] == c; }
    } else {
      assert Changes<T>([]) == [];
    }
  }

  lemma {:induction false} ChangesGrow<T>(s: seq<T>, v: T)
    ensures Changes(s + [v]) == Changes(s) + (if s == [] || s[|s| - 1] != v then [v] else [])
  {
    assert (s + [v])[..|s|] == s;
  }

  function Times(s: seq<nat>, x: nat): nat
  {
    if s == [] then 0 else Times(s[1..], x) + (if s[0] == x then 1 else 0)
  }

  lemma {:induction false} TimesAppend(s: seq<nat>, x: nat)
    requires x !in s
    ensures Times(s + [x], x) == 1
  {
    if s == [] {
      assert [x][1..] == [];
    } else {
      assert s[0] in s;
      TimesAppend(s[1..], x);
      assert (s + [x])[1..] == s[1..] + [x];
    }
  }

  lemma {:induction false} QuietCalls(c: Counters, scripts: seq<seq<Action>>, before: seq<nat>, cb: nat)
    requires c == Counters(before + [cb], -1, |before| + 1, false) && cb !in before && scripts == []
    ensures c.Valid()
    ensures var p := CountPass(c, scripts);
            Times(p.calls, cb) == 1 && p.counters.callbacks == before + [cb] && !p.counters.disposed
  {
    QuietPass(c);
    TimesAppend(before, cb);
    assert c.callbacks[0..|before| + 1] == before + [cb];
  }

  /** A run: the derived value is subscribed, and then the root is set again and again. `heard` says whether every change
      called this subscription, once each. If so it has passed on exactly the mapped root values without consecutive
      repeats. When other callbacks do nothing it is always so. */
  method Watch<T(==)>(sub: Subscription<T>, cb: nat, values: seq<T>, scripts: seq<seq<seq<Action>>>) returns (heard: bool)
    requires sub.Valid() && sub.data.Valid() && sub.seen == [] && |scripts| == |values|
    requires var root := sub.data.root; root.View().Valid() && root.currentIndex == -1 && !root.disposed
    modifies sub.parts, sub.data.chain, sub.data.root
    ensures sub.Valid() && sub.data.Valid()
    ensures heard ==> sub.emitted == Changes(Images(sub.data, [old(sub.data.root.currentValue)] + values))
    ensures cb !in old(sub.data.root.callbacks) && (forall s :: s in scripts ==> s == []) ==> heard
  {
    hide Changes, Images, SubDataController.Apply, CountPass, Times;
    var root := sub.data.root;
    ghost var before, v0 := root.callbacks, root.currentValue;
    var first := root.OnData(cb);
    SameData(sub.data);
    var value := sub.Deliver();
    heard := true;
    ghost var all := [v0];
    OneValue(v0);
    assert [] + [v0] == [v0];
    for i := 0 to |values|
      invariant sub.Valid() && sub.data.Valid() && all == [v0] + values[..i]
      invariant root.View().Valid() && root.currentIndex == -1
      invariant heard ==> sub.seen == Changes(all) && root.currentValue == all[i] && !root.disposed
      invariant cb !in before && (forall s :: s in scripts ==> s == []) ==> heard && root.callbacks == before + [cb]
    {
      ghost var quiet := cb !in before && forall s :: s in scripts ==> s == [];
      ghost var c := Counters(root.callbacks, -1, |root.callbacks|, false);
      if quiet {
        assert scripts[i] in scripts;
        QuietCalls(c, scripts[i], before, cb);
      }
      ChangesGrow(all, values[i]);
      var same := root.currentValue == values[i];
      var r, calls := SetAndKeep(sub, values[i], scripts[i]);
      all := all + [values[i]];
      assert values[..i + 1] == values[..i] + [values[i]];
      if !same {
        if r.InsideCallback? || r.Disposed? || Times(calls, cb) != 1 || root.disposed {
          heard := false;
        } else {
          value := sub.Deliver();
        }
      }
    }
    assert values[..|values|] == values;
    ChangesTwice(sub.data, all);
  }

  lemma OneValue<T>(v: T)
    ensures Changes([v]) == [v]
  {
    assert [v][..0] == [];
    assert Changes<T>([]) == [];
  }

  twostate lemma SameData<T>(d: SubDataController<T>)
    requires old(d.Valid())
    requires d.root.changeId == old(d.root.changeId) && d.root.currentValue == old(d.root.currentValue)
    requires forall c :: c in d.chain ==> c.cachedChangeId == old(c.cachedChangeId) && c.cachedValue == old(c.cachedValue)
    ensures d.Valid()
  {
    CachesStaySound(d);
  }

  method SetAndKeep<T(==)>(sub: Subscription<T>, value: T, scripts: seq<seq<Action>>) returns (r: Outcome, calls: seq<nat>)
    requires sub.Valid() && sub.data.Valid() && sub.data.root.View().Valid() && sub.data.root.currentIndex == -1
    modifies sub.data.root
    ensures sub.Valid() && sub.data.Valid() && sub.seen == old(sub.seen)
    ensures var root := sub.data.root;
            && root.View().Valid() && root.currentIndex == -1
            && (r.Disposed? || value == old(root.currentValue) ==> root.View() == old(root.View()) && root.currentValue == old(root.currentValue))
            && (!old(root.disposed) && value != old(root.currentValue) ==>
                  var p := CountPass(Counters(old(root.callbacks), -1, |old(root.callbacks)|, false), scripts);
                  calls == p.calls && root.View() == p.counters.(currentIndex := -1) && root.currentValue == value
                  && !r.InsideCallback? && !r.Disposed?)
  {
    hide CountPass;
    r, calls := sub.data.root.SetValue(value, scripts);
    CachesStaySound(sub.data);
  }
}

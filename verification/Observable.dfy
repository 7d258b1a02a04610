/**
 The observable value and its notification pass. While a pass runs, the callbacks it calls may subscribe,
 unsubscribe and dispose; two counters kept in step with the callback list decide who is still to be called.
 */
module Observable {
  import opened Wrappers

  /** What a callback does during its turn, and the callbacks it subscribes do in the call that subscribing makes.
      Callbacks are known by number; one may be subscribed more than once. */
  datatype Action = Subscribe(cb: nat) | Unsubscribe(cb: nat) | Dispose | Throw

  // ------------------------------------------------------------------ the pass as it is meant

  /** The subscribers of a pass: those called, those still to be called, and those that came during it. */
  datatype Lists = Lists(called: seq<nat>, waiting: seq<nat>, added: seq<nat>, disposed: bool)
  {
    function All(): seq<nat>
    {
      called + waiting + added
    }
  }

  function IndexOf(s: seq<nat>, x: nat): (i: int)
    ensures -1 <= i < |s|
    ensures i >= 0 ==> s[i] == x
  {
    if s == [] then -1 else if s[0] == x then 0 else if IndexOf(s[1..], x) == -1 then -1 else 1 + IndexOf(s[1..], x)
  }

  function RemoveAt(s: seq<nat>, i: int): seq<nat>
    requires 0 <= i < |s|
  {
    s[..i] + s[i + 1..]
  }

  function RemoveFirst(s: seq<nat>, x: nat): seq<nat>
  {
    var i := IndexOf(s, x);
    if i == -1 then s else RemoveAt(s, i)
  }

  /** Whoever leaves is taken from the first list it stands in. */
  function Leave(l: Lists, cb: nat): Lists
  {
    if cb in l.called then l.(called := RemoveFirst(l.called, cb))
    else if cb in l.waiting then l.(waiting := RemoveFirst(l.waiting, cb))
    else l.(added := RemoveFirst(l.added, cb))
  }

  /** After one action; an error ends the pass. */
  datatype Acted = Acted(lists: Lists, threw: bool)

  function Act(l: Lists, a: Action): Acted
  {
    match a
    case Subscribe(cb) => if l.disposed then Acted(l, true) else Acted(l.(added := l.added + [cb]), false)
    case Unsubscribe(cb) => Acted(Leave(l, cb), false)
    case Dispose => Acted(Lists([], [], [], true), false)
    case Throw => Acted(l, true)
  }

  function Turn(l: Lists, script: seq<Action>): Acted
    decreases |script|
  {
    if script == [] then Acted(l, false)
    else
      var r := Act(l, script[0]);
      if r.threw then r else Turn(r.lists, script[1..])
  }

  function Next(l: Lists): Lists
    requires l.waiting != []
  {
    l.(called := l.called + [l.waiting[0]], waiting := l.waiting[1..])
  }

  lemma {:induction false} TurnShrinks(l: Lists, script: seq<Action>)
    ensures |Turn(l, script).lists.waiting| <= |l.waiting|
    decreases |script|
  {
    if script != [] { TurnShrinks(Act(l, script[0]).lists, script[1..]); }
  }

  /** The calls of a pass, in order, and where it ends; turn `i` runs `scripts[i]`. */
  datatype Pass = Pass(calls: seq<nat>, lists: Lists, threw: bool)

  function Script(scripts: seq<seq<Action>>): seq<Action>
  {
    if scripts == [] then [] else scripts[0]
  }

  function Rest(scripts: seq<seq<Action>>): seq<seq<Action>>
  {
    if scripts == [] then [] else scripts[1..]
  }

  function RunPass(l: Lists, scripts: seq<seq<Action>>): Pass
    decreases |l.waiting|
  {
    if l.waiting == [] then Pass([], l, false)
    else
      TurnShrinks(Next(l), Script(scripts));
      var r := Turn(Next(l), Script(scripts));
      if r.threw then Pass([l.waiting[0]], r.lists, true)
      else
        var p := RunPass(r.lists, Rest(scripts));
        p.(calls := [l.waiting[0]] + p.calls)
  }

  /** Everyone who stood in line and did not leave before its turn. */
  function Without(s: seq<nat>, gone: set<nat>): seq<nat>
  {
    if s == [] then [] else (if s[0] in gone then [] else [s[0]]) + Without(s[1..], gone)
  }

  function Elements(s: seq<nat>): set<nat>
  {
    set x | x in s
  }

  predicate Distinct(s: seq<nat>)
  {
    forall i, j :: 0 <= i < j < |s| ==> s[i] != s[j]
  }

  lemma {:induction false} RemovedFrom(s: seq<nat>, x: nat)
    requires Distinct(s)
    ensures RemoveFirst(s, x) == Without(s, {x}) && Distinct(RemoveFirst(s, x))
  {
    hide RemoveFirst;
    if s == [] {
      RemoveNothing(x);
    } else {
      RemoveStep(s, x);
      if s[0] == x {
        assert x !in s[1..];
        WithoutAll(s[1..], x);
      } else {
        RemovedFrom(s[1..], x);
        WithoutHolds(s[1..], {x}, s[0]);
        HeadDistinct(s[0], RemoveFirst(s[1..], x));
      }
    }
  }

  lemma RemoveNothing(x: nat)
    ensures RemoveFirst([], x) == []
  {
  }

  lemma RemoveStep(s: seq<nat>, x: nat)
    requires s != []
    ensures RemoveFirst(s, x) == if s[0] == x then s[1..] else [s[0]] + RemoveFirst(s[1..], x)
  {
    var i := IndexOf(s[1..], x);
    if s[0] != x {
      if i == -1 { assert s == [s[0]] + s[1..]; } else { RemoveBehind(s, i); }
    }
  }

  lemma RemoveBehind(s: seq<nat>, i: nat)
    requires i + 1 < |s|
    ensures RemoveAt(s, 1 + i) == [s[0]] + RemoveAt(s[1..], i)
  {
  }

  lemma HeadDistinct(h: nat, t: seq<nat>)
    requires Distinct(t) && h !in t
    ensures Distinct([h] + t)
  {
    var s := [h] + t;
    assert forall i :: 1 <= i < |s| ==> s[i] == t[i - 1] && t[i - 1] in t;
  }

  lemma {:induction false} WithoutAll(s: seq<nat>, x: nat)
    requires x !in s
    ensures Without(s, {x}) == s
  {
    if s != [] {
      assert s[0] in s;
      WithoutAll(s[1..], x);
      assert s == [s[0]] + s[1..];
    }
  }

  lemma {:induction false} WithoutTwice(s: seq<nat>, a: set<nat>, b: set<nat>)
    ensures Without(Without(s, a), b) == Without(s, a + b)
  {
    if s != [] {
      WithoutTwice(s[1..], a, b);
      var rest := Without(s[1..], a);
      assert [] + rest == rest && ([s[0]] + rest)[1..] == rest;
    }
  }

  lemma {:induction false} WithoutHolds(s: seq<nat>, a: set<nat>, x: nat)
    ensures x in Without(s, a) <==> x in s && x !in a
  {
    if s != [] { WithoutHolds(s[1..], a, x); }
  }

  lemma {:induction false} WithoutDistinct(s: seq<nat>, a: set<nat>)
    requires Distinct(s)
    ensures Distinct(Without(s, a))
  {
    if s != [] {
      WithoutDistinct(s[1..], a);
      WithoutHolds(s[1..], a, s[0]);
      var r := Without(s[1..], a);
      assert [] + r == r;
      HeadDistinct(s[0], r);
    }
  }

  lemma {:induction false} WithoutGone(s: seq<nat>)
    ensures Without(s, Elements(s)) == []
  {
    WithoutEvery(s, Elements(s));
  }

  lemma {:induction false} WithoutEvery(s: seq<nat>, gone: set<nat>)
    requires forall x :: x in s ==> x in gone
    ensures Without(s, gone) == []
  {
    if s != [] {
      assert s[0] in s;
      WithoutEvery(s[1..], gone);
    }
  }

  /** Who leaves the line during an action. */
  function Dropped(l: Lists, a: Action): set<nat>
  {
    match a
    case Unsubscribe(cb) => if cb !in l.called && cb in l.waiting then {cb} else {}
    case Dispose => Elements(l.waiting)
    case _ => {}
  }

  function DroppedIn(l: Lists, script: seq<Action>): set<nat>
    decreases |script|
  {
    if script == [] then {}
    else
      var r := Act(l, script[0]);
      Dropped(l, script[0]) + (if r.threw then {} else DroppedIn(r.lists, script[1..]))
  }

  lemma ActDrops(l: Lists, a: Action)
    requires Distinct(l.waiting)
    ensures Act(l, a).lists.waiting == Without(l.waiting, Dropped(l, a)) && Distinct(Act(l, a).lists.waiting)
  {
    WithoutNone(l.waiting);
    match a
    case Unsubscribe(cb) =>
      if cb !in l.called && cb in l.waiting { RemovedFrom(l.waiting, cb); }
    case Dispose => WithoutGone(l.waiting);
    case _ =>
  }

  lemma {:induction false} WithoutNone(s: seq<nat>)
    ensures Without(s, {}) == s
  {
    if s != [] {
      WithoutNone(s[1..]);
      assert s == [s[0]] + s[1..];
    }
  }

  lemma {:induction false} TurnDrops(l: Lists, script: seq<Action>)
    requires Distinct(l.waiting)
    ensures var r := Turn(l, script);
            r.lists.waiting == Without(l.waiting, DroppedIn(l, script)) && Distinct(r.lists.waiting)
    decreases |script|
  {
    hide Dropped, Act;
    if script == [] {
      WithoutNone(l.waiting);
    } else {
      ActDrops(l, script[0]);
      var r := Act(l, script[0]);
      if !r.threw {
        TurnDrops(r.lists, script[1..]);
        WithoutTwice(l.waiting, Dropped(l, script[0]), DroppedIn(r.lists, script[1..]));
      } else {
        assert DroppedIn(l, script) == Dropped(l, script[0]);
      }
    }
  }

  /** Everyone who left the line in the course of a pass. */
  function Gone(l: Lists, scripts: seq<seq<Action>>): set<nat>
    decreases |l.waiting|
  {
    if l.waiting == [] then {}
    else
      TurnShrinks(Next(l), Script(scripts));
      var r := Turn(Next(l), Script(scripts));
      DroppedIn(Next(l), Script(scripts)) + (if r.threw then {} else Gone(r.lists, Rest(scripts)))
  }

  lemma {:induction false} DroppedWaited(l: Lists, script: seq<Action>)
    requires Distinct(l.waiting)
    ensures forall x :: x in DroppedIn(l, script) ==> x in l.waiting
    decreases |script|
  {
    hide Act, Dropped;
    if script != [] {
      DroppedNow(l, script[0]);
      ActDrops(l, script[0]);
      var r := Act(l, script[0]);
      if !r.threw {
        DroppedWaited(r.lists, script[1..]);
        forall x | x in DroppedIn(l, script) ensures x in l.waiting
        {
          if x !in Dropped(l, script[0]) {
            assert x in DroppedIn(r.lists, script[1..]);
            WithoutHolds(l.waiting, Dropped(l, script[0]), x);
          }
        }
      } else {
        assert DroppedIn(l, script) == Dropped(l, script[0]);
      }
    }
  }

  lemma DroppedNow(l: Lists, a: Action)
    ensures forall x :: x in Dropped(l, a) ==> x in l.waiting
  {
  }

  lemma {:induction false} GoneWaited(l: Lists, scripts: seq<seq<Action>>)
    requires Distinct(l.waiting)
    ensures forall x :: x in Gone(l, scripts) ==> x in l.waiting
    decreases |l.waiting|
  {
    hide Turn, DroppedIn;
    if l.waiting != [] {
      var rest := l.waiting[1..];
      TurnShrinks(Next(l), Script(scripts));
      TurnDrops(Next(l), Script(scripts));
      DroppedWaited(Next(l), Script(scripts));
      var r := Turn(Next(l), Script(scripts));
      if !r.threw {
        GoneWaited(r.lists, Rest(scripts));
        forall x | x in r.lists.waiting ensures x in rest { WithoutHolds(rest, DroppedIn(Next(l), Script(scripts)), x); }
      }
    }
  }

  /** A pass calls exactly those that stood in line at its start and did not leave before their turn, in order and
      once each, and nobody who came during it; an error cuts it short. */
  lemma {:induction false} PassCallsTheLine(l: Lists, scripts: seq<seq<Action>>)
    requires Distinct(l.waiting)
    ensures var p := RunPass(l, scripts);
            && p.calls <= Without(l.waiting, Gone(l, scripts))
            && (!p.threw ==> p.calls == Without(l.waiting, Gone(l, scripts)))
            && Distinct(p.calls)
    decreases |l.waiting|
  {
    hide Turn, DroppedIn;
    if l.waiting != [] {
      var w, rest := l.waiting[0], l.waiting[1..];
      TurnShrinks(Next(l), Script(scripts));
      TurnDrops(Next(l), Script(scripts));
      DroppedWaited(Next(l), Script(scripts));
      GoneWaited(l, scripts);
      var d := DroppedIn(Next(l), Script(scripts));
      var r := Turn(Next(l), Script(scripts));
      assert w !in rest;
      assert w !in d;
      if !r.threw {
        PassCallsTheLine(r.lists, Rest(scripts));
        GoneWaited(r.lists, Rest(scripts));
        assert w !in r.lists.waiting by { WithoutHolds(rest, d, w); }
        WithoutTwice(rest, d, Gone(r.lists, Rest(scripts)));
      }
      WithoutDistinct(l.waiting, Gone(l, scripts));
      PrefixDistinct(RunPass(l, scripts).calls, Without(l.waiting, Gone(l, scripts)));
    }
  }

  lemma PrefixDistinct(a: seq<nat>, b: seq<nat>)
    requires a <= b && Distinct(b)
    ensures Distinct(a)
  {
    assert forall i :: 0 <= i < |a| ==> a[i] == b[i];
  }

  // ------------------------------------------------------------------ the pass as it runs: a list and two counters

  datatype Counters = Counters(callbacks: seq<nat>, currentIndex: int, n: int, disposed: bool)
  {
    predicate Valid()
    {
      -1 <= currentIndex && n <= |callbacks|
    }
  }

  datatype Counted = Counted(counters: Counters, threw: bool)

  function Count(c: Counters, a: Action): (r: Counted)
    requires c.Valid()
    ensures r.counters.Valid()
    ensures c.currentIndex >= c.n - 1 || r.counters.n - r.counters.currentIndex <= c.n - c.currentIndex
  {
    match a
    case Subscribe(cb) => if c.disposed then Counted(c, true) else Counted(c.(callbacks := c.callbacks + [cb]), false)
    case Unsubscribe(cb) =>
      var i := IndexOf(c.callbacks, cb);
      if i == -1 then Counted(c, false)
      else Counted(Counters(RemoveAt(c.callbacks, i), if i <= c.currentIndex then c.currentIndex - 1 else c.currentIndex,
                            c.n - 1, c.disposed), false)
    case Dispose => Counted(Counters([], c.currentIndex, 0, true), false)
    case Throw => Counted(c, true)
  }

  /** How far the pass still has to go. */
  function Left(c: Counters): nat
  {
    if c.n - 1 > c.currentIndex then c.n - 1 - c.currentIndex else 0
  }

  lemma CountLeft(c: Counters, a: Action)
    requires c.Valid()
    ensures Left(Count(c, a).counters) <= Left(c)
  {
  }

  function CountTurn(c: Counters, script: seq<Action>): (r: Counted)
    requires c.Valid()
    ensures r.counters.Valid()
    decreases |script|
  {
    if script == [] then Counted(c, false)
    else
      var r := Count(c, script[0]);
      if r.threw then r else CountTurn(r.counters, script[1..])
  }

  lemma {:induction false} CountTurnLeft(c: Counters, script: seq<Action>)
    requires c.Valid()
    ensures Left(CountTurn(c, script).counters) <= Left(c)
    decreases |script|
  {
    hide Count;
    if script != [] {
      CountLeft(c, script[0]);
      var r := Count(c, script[0]);
      if !r.threw { CountTurnLeft(r.counters, script[1..]); }
    }
  }

  function Advance(c: Counters): Counters
  {
    c.(currentIndex := c.currentIndex + 1)
  }

  datatype CountedPass = CountedPass(calls: seq<nat>, counters: Counters, threw: bool)

  function CountPass(c: Counters, scripts: seq<seq<Action>>): (p: CountedPass)
    requires c.Valid()
    ensures p.counters.Valid()
    decreases Left(c)
  {
    if c.currentIndex >= c.n - 1 then CountedPass([], c, false)
    else
      CountTurnLeft(Advance(c), Script(scripts));
      var r := CountTurn(Advance(c), Script(scripts));
      var cb := c.callbacks[c.currentIndex + 1];
      if r.threw then CountedPass([cb], r.counters, true)
      else
        var p := CountPass(r.counters, Rest(scripts));
        p.(calls := [cb] + p.calls)
  }

  // ------------------------------------------------------------------ the counters stand for the lists

  /** The list is the three lists in a row, and `n` falls short of the called and the waiting by `k`. */
  predicate Represents(c: Counters, l: Lists, k: nat)
  {
    && c.callbacks == l.All() && c.disposed == l.disposed
    && (if l.disposed then l.All() == [] && c.n == 0 && c.currentIndex >= -1 && k == 0
        else c.currentIndex + 1 == |l.called| && c.n == |l.called| + |l.waiting| - k)
  }

  /** Someone leaves who came during this pass. */
  predicate LeavesAdded(l: Lists, a: Action)
  {
    a.Unsubscribe? && a.cb !in l.called && a.cb !in l.waiting && a.cb in l.added
  }

  /** How far `n` falls short after an action: by one more when someone leaves who was not counted in. */
  function Deficit(l: Lists, k: nat, a: Action): nat
  {
    if LeavesAdded(l, a) then k + 1 else if a.Dispose? then 0 else k
  }

  lemma {:induction false} IndexOfFirst(s: seq<nat>, x: nat)
    ensures IndexOf(s, x) == -1 <==> x !in s
    ensures x in s ==> forall j :: 0 <= j < IndexOf(s, x) ==> s[j] != x
  {
    if s != [] && s[0] != x {
      IndexOfFirst(s[1..], x);
      assert forall j :: 1 <= j < |s| ==> s[j] == s[1..][j - 1];
    }
  }

  lemma {:induction false} IndexOfBoth(a: seq<nat>, b: seq<nat>, x: nat)
    ensures IndexOf(a + b, x) == if x in a then IndexOf(a, x) else if x in b then |a| + IndexOf(b, x) else -1
  {
    IndexOfFirst(b, x);
    if a == [] {
      assert a + b == b;
    } else {
      assert (a + b)[1..] == a[1..] + b;
      IndexOfFirst(a[1..], x);
      IndexOfBoth(a[1..], b, x);
    }
  }

  /** One action does the same to the counters and to the lists, but for the deficit; so the counters stay in step
      exactly when the action does not take out someone who came during the pass. */
  lemma CountFollows(c: Counters, l: Lists, k: nat, a: Action)
    requires Represents(c, l, k)
    ensures c.Valid() && Count(c, a).threw == Act(l, a).threw
    ensures Represents(Count(c, a).counters, Act(l, a).lists, Deficit(l, k, a))
    ensures k == 0 ==> (Represents(Count(c, a).counters, Act(l, a).lists, 0) <==> !LeavesAdded(l, a))
  {
    hide IndexOf, RemoveAt;
    match a
    case Unsubscribe(cb) =>
      Located(l, cb);
      if cb in l.called {
        CutFirst(l.called, l.waiting, l.added, IndexOf(l.called, cb));
      } else if cb in l.waiting {
        CutSecond(l.called, l.waiting, l.added, IndexOf(l.waiting, cb));
      } else if cb in l.added {
        CutThird(l.called, l.waiting, l.added, IndexOf(l.added, cb));
      }
    case Subscribe(cb) => assert l.All() + [cb] == l.called + l.waiting + (l.added + [cb]);
    case _ =>
  }

  lemma Located(l: Lists, cb: nat)
    ensures IndexOf(l.All(), cb) == if cb in l.called then IndexOf(l.called, cb)
                                    else if cb in l.waiting then |l.called| + IndexOf(l.waiting, cb)
                                    else if cb in l.added then |l.called| + |l.waiting| + IndexOf(l.added, cb) else -1
    ensures cb in l.called <==> IndexOf(l.called, cb) >= 0
    ensures cb in l.waiting <==> IndexOf(l.waiting, cb) >= 0
    ensures cb in l.added <==> IndexOf(l.added, cb) >= 0
  {
    hide IndexOf;
    IndexOfBoth(l.called + l.waiting, l.added, cb);
    IndexOfBoth(l.called, l.waiting, cb);
    IndexOfFirst(l.called, cb);
    IndexOfFirst(l.waiting, cb);
    IndexOfFirst(l.added, cb);
  }

  lemma CutFirst(a: seq<nat>, b: seq<nat>, c: seq<nat>, i: int)
    requires 0 <= i < |a|
    ensures RemoveAt(a + b + c, i) == RemoveAt(a, i) + b + c && |RemoveAt(a, i)| == |a| - 1
  {
  }

  lemma CutSecond(a: seq<nat>, b: seq<nat>, c: seq<nat>, i: int)
    requires 0 <= i < |b|
    ensures RemoveAt(a + b + c, |a| + i) == a + RemoveAt(b, i) + c && |RemoveAt(b, i)| == |b| - 1
  {
  }

  lemma CutThird(a: seq<nat>, b: seq<nat>, c: seq<nat>, i: int)
    requires 0 <= i < |c|
    ensures RemoveAt(a + b + c, |a| + |b| + i) == a + b + RemoveAt(c, i)
  {
  }

  /** The deficit after a turn. */
  function TurnDeficit(l: Lists, k: nat, script: seq<Action>): nat
    decreases |script|
  {
    if script == [] then k
    else
      var r := Act(l, script[0]);
      var k1 := Deficit(l, k, script[0]);
      if r.threw then k1 else TurnDeficit(r.lists, k1, script[1..])
  }

  /** At some turn someone is still waiting, but no more than are missing from `n`. */
  predicate Short(l: Lists, scripts: seq<seq<Action>>, k: nat)
    decreases |l.waiting|
  {
    && l.waiting != []
    && (|l.waiting| <= k ||
        (TurnShrinks(Next(l), Script(scripts));
         var r := Turn(Next(l), Script(scripts));
         !r.threw && Short(r.lists, Rest(scripts), TurnDeficit(Next(l), k, Script(scripts)))))
  }

  lemma {:induction false} TurnFollows(c: Counters, l: Lists, k: nat, script: seq<Action>)
    requires Represents(c, l, k)
    ensures c.Valid()
    ensures var d, m := CountTurn(c, script), Turn(l, script);
            d.threw == m.threw && Represents(d.counters, m.lists, TurnDeficit(l, k, script))
    decreases |script|
  {
    hide Count, Act, Deficit;
    RepresentsValid(c, l, k);
    if script != [] {
      CountFollows(c, l, k, script[0]);
      var r := Act(l, script[0]);
      if !r.threw { TurnFollows(Count(c, script[0]).counters, r.lists, Deficit(l, k, script[0]), script[1..]); }
    }
  }

  lemma RepresentsValid(c: Counters, l: Lists, k: nat)
    requires Represents(c, l, k)
    ensures c.Valid()
  {
  }

  lemma NextFollows(c: Counters, l: Lists, k: nat)
    requires Represents(c, l, k)
    ensures |l.waiting| <= k || l.waiting == [] <==> c.currentIndex >= c.n - 1
    ensures l.waiting != [] ==> Represents(Advance(c), Next(l), k)
    ensures l.waiting != [] && |l.waiting| > k ==> c.callbacks[c.currentIndex + 1] == l.waiting[0]
  {
    if l.waiting != [] {
      assert Next(l).All() == l.All();
    }
  }

  /** The counters call exactly those who should be called if and only if they never fall short; otherwise they stop
      too early. */
  lemma {:induction false} PassIff(c: Counters, l: Lists, scripts: seq<seq<Action>>, k: nat)
    requires Represents(c, l, k)
    ensures c.Valid()
    ensures var p, q := CountPass(c, scripts), RunPass(l, scripts);
            && (p.calls == q.calls <==> !Short(l, scripts, k))
            && p.calls <= q.calls
            && (!Short(l, scripts, k) ==> p.threw == q.threw && p.counters.callbacks == q.lists.All()
                                          && p.counters.disposed == q.lists.disposed)
    decreases |l.waiting|
  {
    hide CountTurn, Turn, TurnDeficit, Next, Advance, Script, Rest, Lists.All;
    RepresentsValid(c, l, k);
    NextFollows(c, l, k);
    if l.waiting != [] && |l.waiting| > k {
      TurnShrinks(Next(l), Script(scripts));
      NextWaiting(l);
      TurnFollows(Advance(c), Next(l), k, Script(scripts));
      var r := Turn(Next(l), Script(scripts));
      if !r.threw {
        var k1 := TurnDeficit(Next(l), k, Script(scripts));
        var d := CountTurn(Advance(c), Script(scripts));
        PassIff(d.counters, r.lists, Rest(scripts), k1);
        OneMoreCall(l.waiting[0], CountPass(d.counters, Rest(scripts)).calls, RunPass(r.lists, Rest(scripts)).calls);
      }
    }
  }

  lemma OneMoreCall(x: nat, a: seq<nat>, b: seq<nat>)
    ensures [x] + a == [x] + b <==> a == b
    ensures a <= b ==> [x] + a <= [x] + b
  {
    assert ([x] + a)[1..] == a && ([x] + b)[1..] == b;
  }

  /** For a whole notification: everyone still in line is called, exactly if there never are as few in line as have
      come and gone during the pass. */
  lemma NotifyIff(callbacks: seq<nat>, disposed: bool, scripts: seq<seq<Action>>)
    requires disposed ==> callbacks == []
    ensures var l := Lists([], callbacks, [], disposed);
            CountPass(Counters(callbacks, -1, |callbacks|, disposed), scripts).calls == RunPass(l, scripts).calls
            <==> !Short(l, scripts, 0)
  {
    hide Short;
    var l := Lists([], callbacks, [], disposed);
    assert [] + callbacks + [] == callbacks;
    PassIff(Counters(callbacks, -1, |callbacks|, disposed), l, scripts, 0);
  }

  /** Those who come during a pass are not called by it, only by their own subscription. */
  lemma {:induction false} NewcomersWait(l: Lists, scripts: seq<seq<Action>>, cb: nat)
    requires cb in RunPass(l, scripts).calls
    ensures cb in l.waiting
    decreases |l.waiting|
  {
    hide Turn;
    TurnShrinks(Next(l), Script(scripts));
    var r := Turn(Next(l), Script(scripts));
    if cb != l.waiting[0] {
      NewcomersWait(r.lists, Rest(scripts), cb);
      StaysInLine(Next(l), Script(scripts), cb);
    }
  }

  lemma {:induction false} StaysInLine(l: Lists, script: seq<Action>, cb: nat)
    requires cb in Turn(l, script).lists.waiting
    ensures cb in l.waiting
    decreases |script|
  {
    hide IndexOf;
    if script != [] {
      var r := Act(l, script[0]);
      if !r.threw { StaysInLine(r.lists, script[1..], cb); }
    }
  }

  lemma NextWaiting(l: Lists)
    requires l.waiting != []
    ensures |Next(l).waiting| == |l.waiting| - 1
  {
  }

  /** Otherwise someone can be lost: with 1 and 2 subscribed, 1 subscribes 3 and takes it out again - and 2 is
      never called. */
  lemma SubscriberLost()
    ensures var c := Counters([1, 2], -1, 2, false);
            CountPass(c, [[Subscribe(3), Unsubscribe(3)]]).calls == [1]
    ensures RunPass(Lists([], [1, 2], [], false), [[Subscribe(3), Unsubscribe(3)]]).calls == [1, 2]
  {
    var script := [Subscribe(3), Unsubscribe(3)];
    var scripts := [script];
    CountedOut(script);
    ListedOut(script);
    assert scripts[1..] == [];
    assert Next(Lists([], [1, 2], [], false)) == Lists([1], [2], [], false);
    var last := Lists([1], [2], [], false);
    assert Next(last).waiting == [];
    assert Turn(Next(last), []).lists == Next(last);
  }

  lemma CountedOut(script: seq<Action>)
    requires script == [Subscribe(3), Unsubscribe(3)]
    ensures CountTurn(Counters([1, 2], 0, 2, false), script) == Counted(Counters([1, 2], 0, 1, false), false)
  {
    var c1 := Counters([1, 2, 3], 0, 2, false);
    assert Count(Counters([1, 2], 0, 2, false), script[0]) == Counted(c1, false);
    IndexOfFirst([1, 2, 3], 3);
    assert RemoveAt([1, 2, 3], 2) == [1, 2];
    assert script[1..] == [Unsubscribe(3)] && script[1..][1..] == [];
    var c2 := Counters([1, 2], 0, 1, false);
    assert Count(c1, Unsubscribe(3)) == Counted(c2, false);
    assert CountTurn(c2, []) == Counted(c2, false);
    assert CountTurn(c1, script[1..]) == Counted(c2, false);
  }

  lemma ListedOut(script: seq<Action>)
    requires script == [Subscribe(3), Unsubscribe(3)]
    ensures Turn(Lists([1], [2], [], false), script) == Acted(Lists([1], [2], [], false), false)
  {
    assert Act(Lists([1], [2], [], false), script[0]) == Acted(Lists([1], [2], [3], false), false);
    assert RemoveFirst([3], 3) == [];
    assert script[1..] == [Unsubscribe(3)] && script[1..][1..] == [];
    var l1, l2 := Lists([1], [2], [3], false), Lists([1], [2], [], false);
    assert Act(l1, Unsubscribe(3)) == Acted(l2, false);
    assert Turn(l2, []) == Acted(l2, false);
    assert Turn(l1, script[1..]) == Acted(l2, false);
  }

  // ------------------------------------------------------------------ the object

  datatype Outcome = Done | InsideCallback | Disposed | CallbackThrew

  class MutableValueImpl<T(==)> {
    var currentValue: T
    var callbacks: seq<nat>
    var currentIndex: int
    var n: int
    var changeId: nat
    var disposed: bool

    function View(): Counters
      reads this
    {
      Counters(callbacks, currentIndex, n, disposed)
    }

    constructor (value: T)
      ensures currentValue == value && View() == Counters([], -1, 0, false) && changeId == 0
    {
      currentValue := value;
      callbacks, currentIndex, n, changeId, disposed := [], -1, 0, 0, false;
    }

    /** Subscribes and calls the callback at once, with `first`; what the callback does then are the next actions of
        the script that subscribed it. */
    method OnData(cb: nat) returns (first: Option<T>)
      requires View().Valid()
      modifies this`callbacks
      ensures View() == Count(old(View()), Subscribe(cb)).counters
      ensures first == if Count(old(View()), Subscribe(cb)).threw then None else Some(currentValue)
    {
      if disposed { return None; }
      callbacks := callbacks + [cb];
      return Some(currentValue);
    }

    method Off(cb: nat)
      requires View().Valid()
      modifies this`callbacks, this`currentIndex, this`n
      ensures View() == Count(old(View()), Unsubscribe(cb)).counters
    {
      var index := IndexOf(callbacks, cb);
      if index != -1 {
        callbacks := callbacks[..index] + callbacks[index + 1..];
        if index <= currentIndex { currentIndex := currentIndex - 1; }
        n := n - 1;
      }
    }

    method DisposeAll()
      modifies this`disposed, this`callbacks, this`n
      ensures View() == Counters([], old(currentIndex), 0, true)
    {
      disposed := true;
      callbacks := [];
      n := 0;
    }

    /** What one callback does in its turn. */
    method TakeTurn(script: seq<Action>) returns (threw: bool)
      requires View().Valid()
      modifies this`callbacks, this`currentIndex, this`n, this`disposed
      ensures threw == CountTurn(old(View()), script).threw && View() == CountTurn(old(View()), script).counters
    {
      hide Count;
      for i := 0 to |script|
        invariant View().Valid()
        invariant CountTurn(old(View()), script) == CountTurn(View(), script[i..])
      {
        assert script[i..][0] == script[i] && script[i..][1..] == script[i + 1..];
        var ok := true;
        match script[i] {
          case Subscribe(cb) => var first := OnData(cb); ok := first.Some?;
          case Unsubscribe(cb) => NeverThrows(View(), script[i]); Off(cb);
          case Dispose => DisposeIs(View()); DisposeAll();
          case Throw => ThrowIs(View()); ok := false;
        }
        if !ok { return true; }
      }
      return false;
    }

    /** Moves on to the next subscriber and calls it. */
    method CallNext(script: seq<Action>) returns (cb: nat, threw: bool)
      requires View().Valid() && currentIndex < n - 1
      modifies this`callbacks, this`currentIndex, this`n, this`disposed
      ensures cb == old(callbacks)[old(currentIndex) + 1]
      ensures var r := CountTurn(Advance(old(View())), script); threw == r.threw && View() == r.counters
    {
      hide CountTurn;
      currentIndex := currentIndex + 1;
      cb := callbacks[currentIndex];
      threw := TakeTurn(script);
    }

    /** Tells everyone about the value; `calls` is who was called, turn `i` running `scripts[i]`. */
    method Notify(scripts: seq<seq<Action>>) returns (threw: bool, calls: seq<nat>)
      requires currentIndex == -1
      modifies this
      ensures changeId == old(changeId) + 1 && currentValue == old(currentValue)
      ensures var p := CountPass(Counters(old(callbacks), -1, |old(callbacks)|, old(disposed)), scripts);
              threw == p.threw && calls == p.calls && View() == p.counters.(currentIndex := -1)
    {
      hide CountTurn, CountPass, Later, Left, Script, Rest, Advance;
      changeId := changeId + 1;
      n := |callbacks|;
      calls := [];
      threw := false;
      ghost var start := View();
      var turn := 0;
      NoCalls(CountPass(start, scripts), scripts);
      while !threw && currentIndex < n - 1
        invariant View().Valid()
        invariant CountPass(start, scripts) == if threw then CountedPass(calls, View(), true)
                                               else Called(calls, CountPass(View(), Later(scripts, turn)))
        invariant changeId == old(changeId) + 1 && currentValue == old(currentValue) && turn >= 0
        decreases !threw, Left(View())
      {
        LaterIs(scripts, turn);
        PassStep(View(), Later(scripts, turn), calls);
        var cb;
        cb, threw := CallNext(if turn < |scripts| then scripts[turn] else []);
        calls := calls + [cb];
        turn := turn + 1;
      }
      if !threw { PassEnds(View(), Later(scripts, turn), calls); }
      currentIndex := -1;
    }

    /** Setting an equal value tells nobody, and callbacks cannot set it. */
    method SetValue(value: T, scripts: seq<seq<Action>>) returns (r: Outcome, calls: seq<nat>)
      modifies this
      ensures r.InsideCallback? <==> old(currentIndex) != -1
      ensures r.Disposed? <==> old(currentIndex) == -1 && old(disposed)
      ensures r.InsideCallback? || r.Disposed? || value == old(currentValue) ==>
                currentValue == old(currentValue) && changeId == old(changeId) && View() == old(View()) && calls == []
      ensures !r.InsideCallback? && !r.Disposed? && value != old(currentValue) ==>
                var p := CountPass(Counters(old(callbacks), -1, |old(callbacks)|, false), scripts);
                && currentValue == value && changeId == old(changeId) + 1
                && calls == p.calls && r == (if p.threw then CallbackThrew else Done) && View() == p.counters.(currentIndex := -1)
    {
      if currentIndex != -1 { return InsideCallback, []; }
      if disposed { return Disposed, []; }
      if value == currentValue { return Done, []; }
      currentValue := value;
      var threw;
      threw, calls := Notify(scripts);
      r := if threw then CallbackThrew else Done;
    }
  }

  function Later(scripts: seq<seq<Action>>, turn: nat): seq<seq<Action>>
  {
    if turn <= |scripts| then scripts[turn..] else []
  }

  lemma LaterIs(scripts: seq<seq<Action>>, turn: nat)
    ensures Script(Later(scripts, turn)) == if turn < |scripts| then scripts[turn] else []
    ensures Rest(Later(scripts, turn)) == Later(scripts, turn + 1)
  {
  }

  function Called(calls: seq<nat>, p: CountedPass): CountedPass
  {
    p.(calls := calls + p.calls)
  }

  lemma NoCalls(p: CountedPass, scripts: seq<seq<Action>>)
    ensures Called([], p) == p && Later(scripts, 0) == scripts
  {
    assert [] + p.calls == p.calls;
  }

  /** One call of a pass. */
  lemma PassStep(c: Counters, scripts: seq<seq<Action>>, calls: seq<nat>)
    requires c.Valid() && c.currentIndex < c.n - 1
    ensures var r := CountTurn(Advance(c), Script(scripts));
            var cb := c.callbacks[c.currentIndex + 1];
            && Left(r.counters) < Left(c)
            && Called(calls, CountPass(c, scripts)) ==
               if r.threw then CountedPass(calls + [cb], r.counters, true)
               else Called(calls + [cb], CountPass(r.counters, Rest(scripts)))
  {
    hide CountTurn, Script, Rest;
    CountTurnLeft(Advance(c), Script(scripts));
    var r := CountTurn(Advance(c), Script(scripts));
    var cb := c.callbacks[c.currentIndex + 1];
    if !r.threw {
      var q := CountPass(r.counters, Rest(scripts));
      assert calls + ([cb] + q.calls) == (calls + [cb]) + q.calls;
    }
  }

  lemma PassEnds(c: Counters, scripts: seq<seq<Action>>, calls: seq<nat>)
    requires c.Valid() && c.currentIndex >= c.n - 1
    ensures Called(calls, CountPass(c, scripts)) == CountedPass(calls, c, false)
  {
    assert calls + [] == calls;
  }

  lemma NeverThrows(c: Counters, a: Action)
    requires c.Valid() && a.Unsubscribe?
    ensures !Count(c, a).threw
  {
  }

  lemma DisposeIs(c: Counters)
    requires c.Valid()
    ensures Count(c, Dispose) == Counted(Counters([], c.currentIndex, 0, true), false)
  {
  }

  lemma ThrowIs(c: Counters)
    requires c.Valid()
    ensures Count(c, Throw) == Counted(c, true)
  {
  }

  /** Callbacks that do nothing: everyone is called, and nothing changes. */
  lemma {:induction false} QuietPass(c: Counters)
    requires c.Valid() && c.currentIndex <= c.n - 1
    ensures var p := CountPass(c, []);
            !p.threw && p.calls == c.callbacks[c.currentIndex + 1..c.n] && p.counters == c.(currentIndex := c.n - 1)
    decreases Left(c)
  {
    if c.currentIndex < c.n - 1 {
      QuietPass(Advance(c));
      assert CountTurn(Advance(c), []) == Counted(Advance(c), false);
    }
  }
}

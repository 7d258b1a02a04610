/** What every media playlist keeps: where tags may stand, how byte ranges tile, and how segments are numbered. */
module HlsRuns {
  import opened Strings
  import opened Wrappers
  import opened Hls

  lemma {:induction false} FoldAppend(g: Setting, m: Machine, a: seq<string>, b: seq<string>)
    ensures Fold(g, m, a + b) == match Fold(g, m, a) case None => None case Some(m1) => Fold(g, m1, b)
    decreases |a|
  {
    hide Step;
    if a == [] {
      assert a + b == b;
    } else {
      assert (a + b)[0] == a[0] && (a + b)[1..] == a[1..] + b;
      var m1 := Step(g, m, a[0]);
      if m1.Some? { FoldAppend(g, m1.value, a[1..], b); }
    }
  }

  // ------------------------------------------------------------------ two code paths, one meaning

  /** The tags both loops know. */
  predicate Movable(line: string)
  {
    InnerTag(line) != NoTag
  }

  /** Tags differ where it matters: in their fifth character, or behind `#EXT-X-`. */
  lemma Tags()
    ensures EXTINF[4] == 'I' && |EXTINF| == 8
    ensures EXT_X_TARGETDURATION[7] == 'T' && EXT_X_MEDIA_SEQUENCE[7] == 'M' && EXT_X_MEDIA_SEQUENCE[8] == 'E'
    ensures EXT_X_ENDLIST[7] == 'E' && EXT_X_PLAYLIST_TYPE[7] == 'P' && EXT_X_PLAYLIST_TYPE[8] == 'L'
    ensures EXT_X_VERSION[7] == 'V' && EXT_X_KEY[7] == 'K' && EXT_X_MAP[7] == 'M' && EXT_X_MAP[8] == 'A'
    ensures EXT_X_BYTERANGE[7] == 'B' && EXT_X_DISCONTINUITY[7] == 'D' && EXT_X_DISCONTINUITY[8] == 'I'
    ensures EXT_X_PROGRAM_DATE_TIME[7] == 'P' && EXT_X_PROGRAM_DATE_TIME[8] == 'R'
    ensures EXT_X_BYTERANGE[4] == '-' && EXT_X_DISCONTINUITY[4] == '-' && EXT_X_PROGRAM_DATE_TIME[4] == '-' && EXT_X_MAP[4] == '-'
    ensures EXT_X_BYTERANGE[0] == '#' && EXT_X_DISCONTINUITY[0] == '#' && EXT_X_PROGRAM_DATE_TIME[0] == '#' && EXT_X_MAP[0] == '#'
    ensures |EXT_X_TARGETDURATION| > 8 && |EXT_X_MEDIA_SEQUENCE| > 8 && |EXT_X_ENDLIST| > 8 && |EXT_X_PLAYLIST_TYPE| > 8
    ensures |EXT_X_VERSION| > 8 && |EXT_X_KEY| > 8 && |EXT_X_MAP| > 8 && |EXT_X_BYTERANGE| > 8
    ensures |EXT_X_DISCONTINUITY| > 8 && |EXT_X_PROGRAM_DATE_TIME| > 8
  {
  }

  /** Both loops see the same tag in a movable line. */
  lemma SameTag(line: string)
    requires Movable(line)
    ensures OuterTag(line) == InnerTag(line) && line != [] && line[0] == '#'
  {
    hide OuterTag, InnerTag, Has;
    Tags();
    MovableChars(line);
    OuterOf(line);
  }

  /** The seventh and eighth characters of a movable line tell its tag. */
  lemma MovableChars(line: string)
    requires Movable(line)
    ensures |line| > 8 && line[0] == '#' && line[4] == '-'
    ensures match InnerTag(line)
            case Range => line[7] == 'B' && Has(line, EXT_X_BYTERANGE)
            case Discontinuity => line[7] == 'D' && line == EXT_X_DISCONTINUITY
            case DateTime => line[7] == 'P' && line[8] == 'R' && Has(line, EXT_X_PROGRAM_DATE_TIME)
            case Map => line[7] == 'M' && line[8] == 'A' && Has(line, EXT_X_MAP)
            case _ => false
  {
    hide EXT_X_BYTERANGE, EXT_X_DISCONTINUITY, EXT_X_PROGRAM_DATE_TIME, EXT_X_MAP;
    Tags();
  }

  lemma OuterOf(line: string)
    requires |line| > 8 && line[4] == '-'
    ensures Has(line, EXT_X_BYTERANGE) && line[7] == 'B' ==> OuterTag(line) == Range
    ensures line == EXT_X_DISCONTINUITY && line[7] == 'D' ==> OuterTag(line) == Discontinuity
    ensures Has(line, EXT_X_PROGRAM_DATE_TIME) && line[7] == 'P' && line[8] == 'R' ==> OuterTag(line) == DateTime
    ensures Has(line, EXT_X_MAP) && line[7] == 'M' && line[8] == 'A' ==> OuterTag(line) == Map
  {
    hide EXTINF, EXT_X_TARGETDURATION, EXT_X_MEDIA_SEQUENCE, EXT_X_ENDLIST, EXT_X_PLAYLIST_TYPE, EXT_X_VERSION, EXT_X_KEY, EXT_X_MAP,
         EXT_X_BYTERANGE, EXT_X_DISCONTINUITY, EXT_X_PROGRAM_DATE_TIME;
    Tags();
  }

  /** A movable tag does the same in both places. */
  lemma SameEffect(g: Setting, st: State, line: string)
    requires Movable(line)
    ensures Outside(g, st, line) == Some(Inside(g, st, line))
  {
    hide OuterTag, InnerTag;
    SameTag(line);
    MovableChars(line);
  }

  predicate IsExtinf(line: string)
  {
    Has(line, EXTINF)
  }

  lemma ExtinfIsNothingInside(g: Setting, st: State, line: string)
    requires IsExtinf(line)
    ensures OuterTag(line) == Extinf && Inside(g, st, line) == st && Has(line, "#") && line != ""
  {
    hide EXTINF, EXT_X_MAP, EXT_X_BYTERANGE, EXT_X_DISCONTINUITY, EXT_X_PROGRAM_DATE_TIME;
    Tags();
    assert line[4] == 'I';
    Hash(line);
  }

  lemma Hash(line: string)
    requires Has(line, EXTINF)
    ensures Has(line, "#")
  {
    assert EXTINF[0] == '#';
    assert line[0] == '#';
  }

  lemma MovableHash(line: string)
    requires Movable(line)
    ensures Has(line, "#") && line != "" && OuterTag(line) != Extinf
  {
    hide OuterTag, InnerTag;
    SameTag(line);
    MovableChars(line);
    assert line[..1] == "#";
  }

  /** In whatever state the parser is, a movable tag and an EXTINF line can change places. */
  lemma StepsCommute(g: Setting, m: Machine, tag: string, extinf: string)
    requires Movable(tag) && IsExtinf(extinf)
    ensures Fold(g, m, [tag, extinf]) == Fold(g, m, [extinf, tag])
  {
    hide OuterTag, Outside, Inside, Movable, IsExtinf, DurationOf;
    SameEffect(g, m.state, tag);
    MovableHash(tag);
    ExtinfIsNothingInside(g, m.state, extinf);
    ExtinfIsNothingInside(g, Inside(g, m.state, tag), extinf);
    assert [tag, extinf][1..] == [extinf] && [extinf][1..] == [] && [extinf, tag][1..] == [tag] && [tag][1..] == [];
    var t := Step(g, m, tag).value;
    var e := Step(g, m, extinf).value;
    assert Step(g, t, extinf) == Step(g, e, tag);
    assert Fold(g, t, [extinf]) == Step(g, t, extinf) && Fold(g, e, [tag]) == Step(g, e, tag);
  }

  /** Moving a BYTERANGE, DISCONTINUITY, PROGRAM-DATE-TIME or MAP line across its EXTINF line does not change what
      the playlist says, whatever stands before and behind. */
  lemma MovedTag(g: Setting, before: seq<string>, tag: string, extinf: string, behind: seq<string>)
    requires Movable(tag) && IsExtinf(extinf)
    ensures Playlist(g, before + ([tag, extinf] + behind)) == Playlist(g, before + ([extinf, tag] + behind))
  {
    hide Step, Movable, IsExtinf, Fold;
    var m := Machine(Fresh(g), Outer);
    FoldAppend(g, m, before, [tag, extinf] + behind);
    FoldAppend(g, m, before, [extinf, tag] + behind);
    var m1 := Fold(g, m, before);
    if m1.Some? {
      FoldAppend(g, m1.value, [tag, extinf], behind);
      FoldAppend(g, m1.value, [extinf, tag], behind);
      StepsCommute(g, m1.value, tag, extinf);
    }
  }

  /** The two orders of a tag line and an EXTINF line. */
  lemma BothOrders(g: Setting, st: State, tag: string, extinf: string)
    requires Has(tag, "#") && !IsExtinf(tag) && IsExtinf(extinf)
    ensures Fold(g, Machine(st, Outer), [extinf, tag]) == Some(Machine(Inside(g, st, tag), Waiting(DurationOf(g, extinf))))
    ensures Fold(g, Machine(st, Outer), [tag, extinf]) ==
              match Outside(g, st, tag) case None => None case Some(t) => Some(Machine(t, Waiting(DurationOf(g, extinf))))
  {
    hide OuterTag, Outside, Inside, IsExtinf, DurationOf, Step;
    OuterStep(g, st, tag);
    OuterStep(g, st, extinf);
    NotExtinf(tag);
    ExtinfIsNothingInside(g, st, extinf);
    WaitingStep(g, st, DurationOf(g, extinf), tag);
    assert [tag, extinf][1..] == [extinf] && [extinf][1..] == [] && [extinf, tag][1..] == [tag] && [tag][1..] == [];
    var t := Outside(g, st, tag);
    if t.Some? {
      OuterStep(g, t.value, extinf);
      assert Fold(g, Machine(t.value, Outer), [extinf]) == Step(g, Machine(t.value, Outer), extinf);
    }
    assert Fold(g, Machine(st, Waiting(DurationOf(g, extinf))), [tag]) == Step(g, Machine(st, Waiting(DurationOf(g, extinf))), tag);
  }

  lemma NotExtinf(line: string)
    requires !IsExtinf(line)
    ensures OuterTag(line) != Extinf
  {
  }

  // ------------------------------------------------------------------ states that no line can tell apart

  /** A name a variable can be used by: braces end it. */
  predicate Referable(name: string)
  {
    name != "" && forall c :: c in name ==> NotBrace(c)
  }

  /** The same variables, as far as texts can use them; without any, texts are not even looked at. */
  ghost predicate SameVars(a: map<string, string>, b: map<string, string>)
  {
    && (a == map[] <==> b == map[])
    && forall n :: Referable(n) ==> (n in a <==> n in b) && (n in a ==> a[n] == b[n])
  }

  ghost predicate Alike(a: State, b: State)
  {
    a.(defines := b.defines) == b && SameVars(a.defines, b.defines)
  }

  lemma {:induction false} SubstituteAlike(s: string, a: map<string, string>, b: map<string, string>)
    requires forall n :: Referable(n) ==> (n in a <==> n in b) && (n in a ==> a[n] == b[n])
    ensures Substitute(s, a) == Substitute(s, b)
    decreases |s|
  {
    hide RunEnd;
    if s != "" {
      SubstituteAlike(s[1..], a, b);
      var k := RunEnd(s, 2, NotBrace);
      if StartsAt(s, 0, "{$") && 2 < k && CharAt(s, k) == Some('}') {
        RunHolds(s, 2, NotBrace);
        assert Referable(s[2..k]);
        SubstituteAlike(s[k + 1..], a, b);
      }
    }
  }

  lemma {:induction false} RunHolds(s: string, pos: nat, p: char -> bool)
    ensures var n := RunEnd(s, pos, p); forall k :: pos <= k < n ==> k < |s| && p(s[k])
    decreases |s| - pos
  {
    if pos < |s| && p(s[pos]) { RunHolds(s, pos + 1, p); }
  }

  lemma VarsAlike(s: string, a: map<string, string>, b: map<string, string>)
    requires SameVars(a, b)
    ensures SubstituteVars(s, a) == SubstituteVars(s, b)
  {
    hide Substitute;
    SubstituteAlike(s, a, b);
  }

  lemma RangesAlike(g: Setting, attrs: map<string, string>, a: map<string, string>, b: map<string, string>)
    requires SameVars(a, b)
    ensures RangeOf(g, attrs, a) == RangeOf(g, attrs, b)
  {
    hide SubstituteVars, SameVars, Usable, Given, RESERVED;
    forall k | k in attrs ensures SubstituteVars(attrs[k], a) == SubstituteVars(attrs[k], b) { VarsAlike(attrs[k], a, b); }
    var keys := attrs.Keys - RESERVED;
    assert AllSubstitute(attrs, keys, a) <==> AllSubstitute(attrs, keys, b);
    if AllSubstitute(attrs, keys, a) { assert Substituted(attrs, keys, a) == Substituted(attrs, keys, b); }
  }

  lemma DefinesAlike(g: Setting, a: State, b: State, attrs: map<string, string>)
    requires Alike(a, b)
    ensures Alike(WithDefine(g, a, attrs), WithDefine(g, b, attrs))
  {
    hide Given, SameVars, Bind;
    match (Given(attrs, "IMPORT"), Given(attrs, "QUERYPARAM"))
    case (Some(name), _) => BindAlike(a.defines, b.defines, g.variables, name);
    case (None, Some(name)) => BindAlike(a.defines, b.defines, g.queryParams, name);
    case (None, None) =>
      if Given(attrs, "NAME").Some? && Given(attrs, "VALUE").Some? {
        GivenThere(attrs, "NAME");
        GivenThere(attrs, "VALUE");
        VarsAdded(a.defines, b.defines, attrs["NAME"], attrs["VALUE"]);
      }
  }

  lemma GivenThere(attrs: map<string, string>, key: string)
    requires Given(attrs, key).Some?
    ensures key in attrs
  {
  }

  lemma BindAlike(a: map<string, string>, b: map<string, string>, from: map<string, string>, name: string)
    requires SameVars(a, b)
    ensures SameVars(Bind(a, from, name), Bind(b, from, name))
  {
    hide SameVars;
    if name in from { VarsAdded(a, b, name, from[name]); }
  }

  lemma VarsAdded(a: map<string, string>, b: map<string, string>, n: string, v: string)
    requires SameVars(a, b)
    ensures SameVars(a[n := v], b[n := v])
  {
    hide Referable;
    assert n in a[n := v] && n in b[n := v];
  }

  ghost predicate BothAlike(a: Option<State>, b: Option<State>)
  {
    (a.None? <==> b.None?) && (a.Some? ==> Alike(a.value, b.value))
  }

  lemma DateRangesAlike(g: Setting, a: State, b: State, attrs: map<string, string>)
    requires Alike(a, b)
    ensures BothAlike(WithDateRange(g, a, attrs), WithDateRange(g, b, attrs))
  {
    hide RangeOf, SameVars;
    RangesAlike(g, attrs, a.defines, b.defines);
  }

  lemma KeysAlike(a: State, b: State, attrs: map<string, string>)
    requires Alike(a, b)
    ensures BothAlike(WithKey(a, attrs), WithKey(b, attrs))
  {
    hide Given, SameVars;
  }

  lemma MapsAlike(g: Setting, a: State, b: State, attrs: map<string, string>)
    requires Alike(a, b)
    ensures Alike(WithMap(g, a, attrs), WithMap(g, b, attrs))
  {
    hide Given, SameVars, ParseByteRangeString;
  }

  lemma OutsideAlike(g: Setting, a: State, b: State, line: string)
    requires Alike(a, b)
    ensures BothAlike(Outside(g, a, line), Outside(g, b, line))
  {
    hide OuterTag, Attributes, WithKey, WithMap, WithDefine, WithDateRange, ParsePartialByteRange, Behind, Trim, SameVars,
         EXT_X_MAP, EXT_X_KEY, EXT_X_DEFINE, EXT_X_DATERANGE, EXT_X_BYTERANGE, EXT_X_PROGRAM_DATE_TIME, EXT_X_VERSION,
         EXT_X_PLAYLIST_TYPE, EXT_X_TARGETDURATION, EXT_X_MEDIA_SEQUENCE;
    match OuterTag(line)
    case Key => KeysAlike(a, b, Attributes(Behind(line, EXT_X_KEY), 0, map[]));
    case Map => MapsAlike(g, a, b, Attributes(Behind(line, EXT_X_MAP), 0, map[]));
    case Define => DefinesAlike(g, a, b, Attributes(Behind(line, EXT_X_DEFINE), 0, map[]));
    case DateRangeTag => DateRangesAlike(g, a, b, Attributes(Behind(line, EXT_X_DATERANGE), 0, map[]));
    case _ =>
  }

  lemma InsideAlike(g: Setting, a: State, b: State, line: string)
    requires Alike(a, b)
    ensures Alike(Inside(g, a, line), Inside(g, b, line))
  {
    hide InnerTag, Attributes, WithMap, ParsePartialByteRange, Behind, SameVars, EXT_X_MAP, EXT_X_BYTERANGE, EXT_X_PROGRAM_DATE_TIME;
    MapsAlike(g, a, b, Attributes(Behind(line, EXT_X_MAP), 0, map[]));
  }

  lemma PushAlike(a: State, b: State, duration: Num, uri: string)
    requires Alike(a, b)
    ensures Alike(Push(a, duration, uri), Push(b, duration, uri))
  {
    hide SameVars, Placed, EndOf;
  }

  lemma StepAlike(g: Setting, a: State, b: State, mode: Mode, line: string)
    requires Alike(a, b)
    ensures var x, y := Step(g, Machine(a, mode), line), Step(g, Machine(b, mode), line);
            (x.None? <==> y.None?) && (x.Some? ==> x.value.mode == y.value.mode && Alike(x.value.state, y.value.state))
  {
    hide Outside, Inside, SubstituteVars, Push, OuterTag, DurationOf;
    OutsideAlike(g, a, b, line);
    InsideAlike(g, a, b, line);
    VarsAlike(line, a.defines, b.defines);
    match mode
    case Outer => OuterStep(g, a, line); OuterStep(g, b, line);
    case Waiting(duration) =>
      WaitingStep(g, a, duration, line);
      WaitingStep(g, b, duration, line);
      var uri := SubstituteVars(line, a.defines);
      if uri.Some? { PushAlike(a, b, duration, uri.value); }
  }

  /** States that are alike say the same, whatever lines follow. */
  lemma {:induction false} FoldAlike(g: Setting, a: State, b: State, mode: Mode, lines: seq<string>)
    requires Alike(a, b)
    ensures Ended(g, Some(Machine(a, mode)), lines) == Ended(g, Some(Machine(b, mode)), lines)
    decreases |lines|
  {
    hide Step, Push, Alike;
    if lines == [] {
      match mode
      case Outer => ReturnedAlike(a, b);
      case Waiting(duration) =>
        PushAlike(a, b, duration, "");
        ReturnedAlike(Push(a, duration, ""), Push(b, duration, ""));
    } else {
      StepAlike(g, a, b, mode, lines[0]);
      var x, y := Step(g, Machine(a, mode), lines[0]), Step(g, Machine(b, mode), lines[0]);
      if x.Some? { FoldAlike(g, x.value.state, y.value.state, x.value.mode, lines[1..]); }
    }
  }

  lemma ReturnedAlike(a: State, b: State)
    requires Alike(a, b)
    ensures Returned(a) == Returned(b)
  {
    hide SameVars;
  }

  // ------------------------------------------------------------------ lines that tell states apart

  lemma {:induction false} SomeLonger(keys: set<string>) returns (m: nat)
    ensures forall k :: k in keys ==> |k| < m
    decreases |keys|
  {
    m := 1;
    if keys != {} {
      var k :| k in keys;
      var n := SomeLonger(keys - {k});
      m := if n > |k| then n else |k| + 1;
    }
  }

  /** The use of a variable. */
  lemma UseOf(n: string, d: map<string, string>)
    requires Referable(n)
    ensures var x := "{$" + n + "}"; Substitute(x, d) == if n in d then Some(d[n]) else None
  {
    var x := "{$" + n + "}";
    var k := 2 + |n|;
    assert x[2..k] == n && x[k] == '}';
    forall i | 2 <= i < k ensures NotBrace(x[i]) { assert x[i] == n[i - 2] && n[i - 2] in n; }
    RunEndIs(x, 2, NotBrace, k);
    assert x[0..2] == "{$";
    assert x[k + 1..] == "";
    if n in d { assert d[n] + "" == d[n]; }
  }

  /** An address that reads differently, when the variables differ. */
  lemma TellingAddress(a: map<string, string>, b: map<string, string>) returns (x: string)
    requires !SameVars(a, b)
    ensures !Has(x, "#") && SubstituteVars(x, a) != SubstituteVars(x, b)
  {
    hide Substitute;
    var n: string;
    if (a == map[]) != (b == map[]) {
      var m := SomeLonger(a.Keys + b.Keys);
      n := seq(m + 1, _ => 'v');
      assert n !in a.Keys + b.Keys;
    } else {
      n :| Referable(n) && !((n in a <==> n in b) && (n in a ==> a[n] == b[n]));
    }
    x := "{$" + n + "}";
    assert x[0] == '{';
    UseOf(n, a);
    UseOf(n, b);
  }

  /** Closing the segment tells everything but variables. */
  lemma PushTells(a: State, b: State, duration: Num)
    requires KeptPending(a, b) && a.(defines := b.defines) != b
    ensures Returned(Push(a, duration, "")) != Returned(Push(b, duration, ""))
  {
    hide Placed, EndOf;
    var x, y := Push(a, duration, ""), Push(b, duration, "");
    var n := |a.segments|;
    assert x.segments[n].key == a.key && y.segments[n].key == b.key;
  }

  lemma PushTellsAddress(a: State, b: State, duration: Num, u: string, v: string)
    requires a.segments == b.segments && u != v
    ensures Returned(Push(a, duration, u)) != Returned(Push(b, duration, v))
  {
    var x, y := Push(a, duration, u), Push(b, duration, v);
    var n := |a.segments|;
    assert x.segments[n].uri == u && y.segments[n].uri == v;
  }

  /** Behind EXTINF, what is pending being the same, some lines tell apart states that are not alike. */
  lemma TellingLines(g: Setting, a: State, b: State, duration: Num) returns (lines: seq<string>)
    requires KeptPending(a, b) && !Alike(a, b)
    ensures Ended(g, Some(Machine(a, Waiting(duration))), lines) != Ended(g, Some(Machine(b, Waiting(duration))), lines)
  {
    hide Fold, Push, SubstituteVars, SameVars, Ended;
    if a.(defines := b.defines) != b {
      lines := [];
      EndsNow(g, a, duration);
      EndsNow(g, b, duration);
      PushTells(a, b, duration);
    } else {
      var x := TellingAddress(a.defines, b.defines);
      lines := [x];
      EndsAt(g, a, duration, x);
      EndsAt(g, b, duration, x);
      var u, v := SubstituteVars(x, a.defines), SubstituteVars(x, b.defines);
      if u.Some? && v.Some? { PushTellsAddress(a, b, duration, u.value, v.value); }
    }
  }

  lemma EndsNow(g: Setting, st: State, duration: Num)
    ensures Ended(g, Some(Machine(st, Waiting(duration))), []) == Some(Returned(Push(st, duration, "")))
  {
    hide Push;
  }

  lemma EndsAt(g: Setting, st: State, duration: Num, x: string)
    requires !Has(x, "#")
    ensures Ended(g, Some(Machine(st, Waiting(duration))), [x])
         == match SubstituteVars(x, st.defines) case None => None case Some(u) => Some(Returned(Push(st, duration, u)))
  {
    hide Push, Step, SubstituteVars;
    assert [x][1..] == [];
    WaitingStep(g, st, duration, x);
    var m := Machine(st, Waiting(duration));
    assert Fold(g, m, [x]) == match Step(g, m, x) case None => None case Some(m1) => Fold(g, m1, []);
  }

  // ------------------------------------------------------------------ which lines can change places

  /** Whatever follows, the playlist says the same with the two lines changed. */
  ghost predicate CanMove(g: Setting, before: seq<string>, tag: string, extinf: string)
  {
    forall behind :: Playlist(g, before + ([tag, extinf] + behind)) == Playlist(g, before + ([extinf, tag] + behind))
  }

  /** The tag does the same in both places, but for variables no text can use. */
  ghost predicate DoesTheSame(g: Setting, st: State, tag: string)
  {
    Outside(g, st, tag).Some? && Alike(Outside(g, st, tag).value, Inside(g, st, tag))
  }

  /** Outside of a segment, no continuation tells the two orders of a tag line and an EXTINF line apart exactly when the tag
      does the same in both places. */
  lemma OrdersAlikeIff(g: Setting, st: State, tag: string, extinf: string)
    requires Has(tag, "#") && !IsExtinf(tag) && IsExtinf(extinf)
    ensures (forall behind :: Ended(g, Some(Machine(st, Outer)), [tag, extinf] + behind)
                           == Ended(g, Some(Machine(st, Outer)), [extinf, tag] + behind))
       <==> DoesTheSame(g, st, tag)
  {
    hide Outside, Inside, IsExtinf, Fold, Movable, DurationOf, Alike, Ended;
    BothOrders(g, st, tag, extinf);
    var m, d := Machine(st, Outer), DurationOf(g, extinf);
    var t, i := Outside(g, st, tag), Inside(g, st, tag);
    forall behind
      ensures Ended(g, Some(m), [extinf, tag] + behind) == Ended(g, Some(Machine(i, Waiting(d))), behind)
      ensures Ended(g, Some(m), [tag, extinf] + behind)
           == if t.None? then None else Ended(g, Some(Machine(t.value, Waiting(d))), behind)
    {
      EndsBehind(g, m, [extinf, tag], behind);
      EndsBehind(g, m, [tag, extinf], behind);
      NothingEnds(g, behind);
    }
    if t.None? {
      EndsSomehow(g, Machine(i, Waiting(d)));
      assert Ended(g, Some(m), [tag, extinf] + []) != Ended(g, Some(m), [extinf, tag] + []);
    } else if Alike(t.value, i) {
      forall behind ensures Ended(g, Some(m), [tag, extinf] + behind) == Ended(g, Some(m), [extinf, tag] + behind) {
        FoldAlike(g, t.value, i, Waiting(d), behind);
      }
    } else {
      if Movable(tag) {
        SameEffect(g, st, tag);
        AlikeItself(i);
      }
      NothingInside(g, st, tag);
      KeepsPending(g, st, tag);
      PendingBack(st, t.value);
      var behind := TellingLines(g, t.value, i, d);
      assert Ended(g, Some(m), [tag, extinf] + behind) != Ended(g, Some(m), [extinf, tag] + behind);
    }
  }

  lemma AlikeItself(st: State)
    ensures Alike(st, st)
  {
  }

  lemma PendingBack(st: State, t: State)
    requires KeptPending(st, t)
    ensures KeptPending(t, st)
  {
  }

  lemma EndsSomehow(g: Setting, m: Machine)
    ensures Ended(g, Some(m), []).Some?
  {
    hide Finish;
  }

  lemma EndsBehind(g: Setting, m: Machine, lines: seq<string>, behind: seq<string>)
    ensures Ended(g, Some(m), lines + behind) == Ended(g, Fold(g, m, lines), behind)
  {
    hide Step, Fold, Finish;
    FoldAppend(g, m, lines, behind);
  }

  /** In a whole playlist: a line moves across EXTINF, with no difference to what is returned whatever follows, exactly when
      what stands before is malformed, or still waits for an address, or leaves the parser in a state in which the line does
      the same in both places. */
  lemma CanMoveIff(g: Setting, before: seq<string>, tag: string, extinf: string)
    requires Has(tag, "#") && !IsExtinf(tag) && IsExtinf(extinf)
    ensures CanMove(g, before, tag, extinf) <==>
              (match Fold(g, Machine(Fresh(g), Outer), before)
               case None => true
               case Some(m) => m.mode.Waiting? || DoesTheSame(g, m.state, tag))
  {
    hide Step, IsExtinf, Fold, Outside, Inside, Playlist, DurationOf, DoesTheSame, Ended;
    var m := Fold(g, Machine(Fresh(g), Outer), before);
    forall behind
      ensures Playlist(g, before + ([tag, extinf] + behind)) == Ended(g, m, [tag, extinf] + behind)
      ensures Playlist(g, before + ([extinf, tag] + behind)) == Ended(g, m, [extinf, tag] + behind)
    {
      PlaylistEnds(g, before, [tag, extinf] + behind);
      PlaylistEnds(g, before, [extinf, tag] + behind);
    }
    if m.None? {
      forall lines ensures Ended(g, m, lines) == None { NothingEnds(g, lines); }
    } else if m.value.mode.Waiting? {
      WaitingCommutes(g, m.value, tag, extinf);
      forall behind ensures Ended(g, m, [tag, extinf] + behind) == Ended(g, m, [extinf, tag] + behind)
      {
        SameEnds(g, m.value, [tag, extinf], [extinf, tag], behind);
      }
    } else {
      OrdersAlikeIff(g, m.value.state, tag, extinf);
      assert m == Some(Machine(m.value.state, Outer));
      if CanMove(g, before, tag, extinf) {
        forall behind ensures Ended(g, m, [tag, extinf] + behind) == Ended(g, m, [extinf, tag] + behind) {
          assert Playlist(g, before + ([tag, extinf] + behind)) == Playlist(g, before + ([extinf, tag] + behind));
        }
      }
    }
  }

  lemma NothingEnds(g: Setting, lines: seq<string>)
    ensures Ended(g, None, lines) == None
  {
  }

  /** What the playlist says when the lines so far have led to `m`. */
  function Ended(g: Setting, m: Option<Machine>, lines: seq<string>): Option<MediaPlaylist>
  {
    match m
    case None => None
    case Some(m) => match Fold(g, m, lines) case None => None case Some(last) => Some(Returned(Finish(last)))
  }

  lemma PlaylistEnds(g: Setting, before: seq<string>, lines: seq<string>)
    ensures Playlist(g, before + lines) == Ended(g, Fold(g, Machine(Fresh(g), Outer), before), lines)
  {
    hide Step, Fold;
    FoldAppend(g, Machine(Fresh(g), Outer), before, lines);
  }

  lemma SameEnds(g: Setting, m: Machine, a: seq<string>, b: seq<string>, behind: seq<string>)
    requires Fold(g, m, a) == Fold(g, m, b)
    ensures Ended(g, Some(m), a + behind) == Ended(g, Some(m), b + behind)
  {
    hide Step, Fold;
    FoldAppend(g, m, a, behind);
    FoldAppend(g, m, b, behind);
  }

  /** Between EXTINF and the address another EXTINF means nothing. */
  lemma WaitingCommutes(g: Setting, m: Machine, tag: string, extinf: string)
    requires m.mode.Waiting? && Has(tag, "#") && IsExtinf(extinf)
    ensures Fold(g, m, [tag, extinf]) == Fold(g, m, [extinf, tag])
  {
    hide Outside, Inside, IsExtinf, Step;
    var d := m.mode.duration;
    var t := Inside(g, m.state, tag);
    WaitingStep(g, m.state, d, tag);
    WaitingStep(g, m.state, d, extinf);
    WaitingStep(g, t, d, extinf);
    ExtinfIsNothingInside(g, m.state, extinf);
    ExtinfIsNothingInside(g, t, extinf);
    assert [tag, extinf][1..] == [extinf] && [extinf][1..] == [] && [extinf, tag][1..] == [tag] && [tag][1..] == [];
    assert Fold(g, Machine(t, m.mode), [extinf]) == Step(g, Machine(t, m.mode), extinf);
    assert Fold(g, m, [tag]) == Step(g, m, tag);
  }

  lemma NothingInside(g: Setting, st: State, line: string)
    requires !Movable(line)
    ensures Inside(g, st, line) == st
  {
    hide InnerTag;
  }

  /** A tag that is not movable touches neither what is pending nor the segments. */
  lemma KeepsPending(g: Setting, st: State, tag: string)
    requires !Movable(tag) && !IsExtinf(tag) && Outside(g, st, tag).Some?
    ensures KeptPending(st, Outside(g, st, tag).value)
  {
    hide OuterTag, Attributes, WithKey, WithDefine, WithDateRange, WithMap, ParsePartialByteRange, Movable, IsExtinf, Behind, Trim;
    OtherTag(tag);
    KeyPending(st, Attributes(Behind(tag, EXT_X_KEY), 0, map[]));
    DefinePending(g, st, Attributes(Behind(tag, EXT_X_DEFINE), 0, map[]));
    RangePending(g, st, Attributes(Behind(tag, EXT_X_DATERANGE), 0, map[]));
  }

  /** The same but for what a tag that is not movable may change. */
  predicate KeptPending(st: State, t: State)
  {
    && t.byteRange == st.byteRange && t.discontinuity == st.discontinuity && t.dateTime == st.dateTime
    && t.previousEnd == st.previousEnd && t.segments == st.segments && t.map_ == st.map_
  }

  lemma KeyPending(st: State, attrs: map<string, string>)
    ensures WithKey(st, attrs).Some? ==> KeptPending(st, WithKey(st, attrs).value)
  {
  }

  lemma DefinePending(g: Setting, st: State, attrs: map<string, string>)
    ensures KeptPending(st, WithDefine(g, st, attrs))
  {
  }

  lemma RangePending(g: Setting, st: State, attrs: map<string, string>)
    ensures WithDateRange(g, st, attrs).Some? ==> KeptPending(st, WithDateRange(g, st, attrs).value)
  {
    hide RangeOf;
  }

  lemma OtherTag(line: string)
    requires !Movable(line)
    ensures !OuterTag(line).Range? && !OuterTag(line).Discontinuity? && !OuterTag(line).DateTime? && !OuterTag(line).Map?
  {
    hide EXTINF, EXT_X_TARGETDURATION, EXT_X_MEDIA_SEQUENCE, EXT_X_ENDLIST, EXT_X_PLAYLIST_TYPE, EXT_X_VERSION, EXT_X_KEY, EXT_X_MAP,
         EXT_X_BYTERANGE, EXT_X_DISCONTINUITY, EXT_X_PROGRAM_DATE_TIME;
  }

  /** A VERSION line can move behind the first EXTINF exactly when it says version 1, in whatever way it writes it; there
      it is lost. */
  lemma MovedVersion(g: Setting, v: string)
    ensures var tag, extinf := EXT_X_VERSION + v, EXTINF + "4,";
            && (var p := Playlist(g, [tag, extinf]); p.Some? && p.value.version == g.num(v))
            && (var p := Playlist(g, [extinf, tag]); p.Some? && p.value.version == Some(1.0))
            && (CanMove(g, [], tag, extinf) <==> g.num(v) == Some(1.0))
  {
    hide Fold, Outside, Inside, EXTINF, EXT_X_VERSION, CanMove, SameVars;
    var tag, extinf := EXT_X_VERSION + v, EXTINF + "4,";
    VersionTag(v);
    var st := Fresh(g);
    BothOrders(g, st, tag, extinf);
    VersionOutside(g, st, v);
    CanMoveIff(g, [], tag, extinf);
    assert Fold(g, Machine(st, Outer), []) == Some(Machine(st, Outer)) by { NoFold(g, Machine(st, Outer)); }
    assert Alike(st.(version := g.num(v)), st) <==> g.num(v) == Some(1.0) by { AlikeItself(st); }
  }

  lemma NoFold(g: Setting, m: Machine)
    ensures Fold(g, m, []) == Some(m)
  {
  }

  /** A DEFINE line can move behind the first EXTINF exactly when there are variables already, and either its name holds a
      brace, so that no text can use it, or the variable has this value already. */
  lemma MovedDefineIff(g: Setting, name: string, value: string)
    requires name != "" && value != "" && '"' !in name && '"' !in value
    ensures CanMove(g, [], DefineLine(name, value), EXTINF + "4,") <==>
              g.variables != map[] && (Referable(name) ==> name in g.variables && g.variables[name] == value)
  {
    hide Fold, Outside, Inside, EXTINF, CanMove, SameVars, DefineLine, Referable;
    var tag, extinf := DefineLine(name, value), EXTINF + "4,";
    var st := Fresh(g);
    DefineTag(name, value);
    DefineOutside(g, st, name, value);
    CanMoveIff(g, [], tag, extinf);
    NoFold(g, Machine(st, Outer));
    var vars := g.variables;
    assert Alike(st.(defines := vars[name := value]), st) <==> SameVars(vars[name := value], vars);
    AddedSame(vars, name, value);
  }

  function DefineLine(name: string, value: string): string
  {
    EXT_X_DEFINE + ListWritten([Attribute("NAME", name, true), Attribute("VALUE", value, true)])
  }

  lemma AddedSame(vars: map<string, string>, name: string, value: string)
    ensures SameVars(vars[name := value], vars) <==>
              vars != map[] && (Referable(name) ==> name in vars && vars[name] == value)
  {
    hide Referable;
    assert name in vars[name := value] && vars[name := value][name] == value;
  }

  lemma DefineTag(name: string, value: string)
    ensures var tag := DefineLine(name, value); Has(tag, "#") && !IsExtinf(tag) && OuterTag(tag) == Define && !Movable(tag)
  {
    hide ListWritten;
    var tag := DefineLine(name, value);
    Tags();
    assert EXT_X_DEFINE[7] == 'D' && EXT_X_DEFINE[8] == 'E' && EXT_X_DEFINE[4] == '-' && EXT_X_DEFINE[0] == '#' && |EXT_X_DEFINE| > 8;
    assert tag[0] == '#' && tag[4] == '-' && tag[7] == 'D' && tag[8] == 'E';
    hide EXTINF, EXT_X_TARGETDURATION, EXT_X_MEDIA_SEQUENCE, EXT_X_ENDLIST, EXT_X_PLAYLIST_TYPE, EXT_X_VERSION, EXT_X_KEY, EXT_X_MAP,
         EXT_X_BYTERANGE, EXT_X_DISCONTINUITY, EXT_X_PROGRAM_DATE_TIME, EXT_X_DEFINE;
  }

  lemma DefineOutside(g: Setting, st: State, name: string, value: string)
    requires name != "" && value != "" && '"' !in name && '"' !in value
    ensures Outside(g, st, DefineLine(name, value)) == Some(st.(defines := st.defines[name := value]))
    ensures Inside(g, st, DefineLine(name, value)) == st
  {
    hide EXT_X_DEFINE, OuterTag, InnerTag, Attributes, ListWritten;
    DefineTag(name, value);
    DefineAttributes(name, value);
    NothingInside(g, st, DefineLine(name, value));
    assert Behind(DefineLine(name, value), EXT_X_DEFINE) == ListWritten([Attribute("NAME", name, true), Attribute("VALUE", value, true)]);
    hide Behind;
    assert WithDefine(g, st, map["NAME" := name, "VALUE" := value]) == st.(defines := st.defines[name := value]);
  }

  lemma DefineAttributes(name: string, value: string)
    requires '"' !in name && '"' !in value
    ensures Attributes(ListWritten([Attribute("NAME", name, true), Attribute("VALUE", value, true)]), 0, map[])
         == map["NAME" := name, "VALUE" := value]
  {
    hide Attributes, ListWritten;
    var list := [Attribute("NAME", name, true), Attribute("VALUE", value, true)];
    assert list[0].Writable() && list[1].Writable();
    AttributesBack(list);
    assert list[..1] == [list[0]] && list[..1][..0] == [];
    assert MapOf(list[..1]) == map["NAME" := name];
    assert MapOf(list) == map["NAME" := name, "VALUE" := value];
    assert PROTO != "NAME" && PROTO != "VALUE" by { assert |PROTO| == 9; }
  }

  lemma VersionTag(v: string)
    ensures var tag := EXT_X_VERSION + v; Has(tag, "#") && !IsExtinf(tag) && OuterTag(tag) == Version && !Movable(tag)
  {
    var tag := EXT_X_VERSION + v;
    Tags();
    assert tag[0] == '#' && tag[4] == '-' && tag[7] == 'V';
    hide EXTINF, EXT_X_TARGETDURATION, EXT_X_MEDIA_SEQUENCE, EXT_X_ENDLIST, EXT_X_PLAYLIST_TYPE, EXT_X_VERSION, EXT_X_KEY, EXT_X_MAP,
         EXT_X_BYTERANGE, EXT_X_DISCONTINUITY, EXT_X_PROGRAM_DATE_TIME;
  }

  lemma VersionOutside(g: Setting, st: State, v: string)
    ensures Outside(g, st, EXT_X_VERSION + v) == Some(st.(version := g.num(v))) && Inside(g, st, EXT_X_VERSION + v) == st
  {
    hide EXT_X_VERSION, OuterTag, InnerTag;
    VersionTag(v);
    assert Behind(EXT_X_VERSION + v, EXT_X_VERSION) == v;
  }

  // ------------------------------------------------------------------ byte ranges

  /** The pending ranges as the segments took them. */
  function Taken(g: Setting, m: Machine, lines: seq<string>): seq<Option<PartialByteRange>>
    decreases |lines|
  {
    if lines == [] then (if m.mode == Outer then [] else [m.state.byteRange])
    else
      match Step(g, m, lines[0])
      case None => []
      case Some(m1) => (if m.mode != Outer && m1.mode == Outer then [m.state.byteRange] else []) + Taken(g, m1, lines[1..])
  }

  /** Where a segment's range lies, from the ranges as written. */
  function RangeAt(taken: seq<Option<PartialByteRange>>, k: nat): Option<ByteRange>
    requires k < |taken|
  {
    match taken[k]
    case None => None
    case Some(p) =>
      Some(ByteRange(p.length,
        match p.offset
        case Some(o) => o
        case None =>
          if k == 0 then Some(0.0)
          else match RangeAt(taken, k - 1) case None => Some(0.0) case Some(r) => Plus(r.offset, r.length)))
  }

  /** The segments so far have taken these ranges, and the end of the last one is remembered. */
  predicate RangesKept(st: State, taken: seq<Option<PartialByteRange>>)
  {
    && |taken| == |st.segments|
    && (forall k :: 0 <= k < |taken| ==> st.segments[k].byteRange == RangeAt(taken, k))
    && st.previousEnd == (if taken == [] then None else EndOf(RangeAt(taken, |taken| - 1)))
  }

  lemma {:induction false} RangeAtPrefix(taken: seq<Option<PartialByteRange>>, more: seq<Option<PartialByteRange>>, k: nat)
    requires k < |taken|
    ensures RangeAt(taken + more, k) == RangeAt(taken, k)
  {
    assert (taken + more)[k] == taken[k];
    if k > 0 { RangeAtPrefix(taken, more, k - 1); }
  }

  lemma PushKeeps(st: State, taken: seq<Option<PartialByteRange>>, duration: Num, uri: string)
    requires RangesKept(st, taken)
    ensures RangesKept(Push(st, duration, uri), taken + [st.byteRange])
  {
    var all := taken + [st.byteRange];
    var n := |taken|;
    forall k | 0 <= k < n ensures RangeAt(all, k) == RangeAt(taken, k) { RangeAtPrefix(taken, [st.byteRange], k); }
    assert all[n] == st.byteRange;
    assert RangeAt(all, n) == Placed(st.byteRange, st.previousEnd);
  }

  predicate SameSegments(a: State, b: State)
  {
    a.segments == b.segments && a.previousEnd == b.previousEnd && a.mediaSequence == b.mediaSequence
  }

  lemma MapKeeps(g: Setting, st: State, attrs: map<string, string>)
    ensures SameSegments(WithMap(g, st, attrs), st)
  {
    hide ParseByteRangeString, Given;
  }

  lemma KeyKeeps(st: State, attrs: map<string, string>)
    ensures WithKey(st, attrs).Some? ==> SameSegments(WithKey(st, attrs).value, st)
  {
    hide Given, IsMethod;
  }

  lemma DefineKeeps(g: Setting, st: State, attrs: map<string, string>)
    ensures SameSegments(WithDefine(g, st, attrs), st)
  {
    hide Bind, Given;
  }

  lemma DateRangeKeeps(g: Setting, st: State, attrs: map<string, string>)
    ensures WithDateRange(g, st, attrs).Some? ==> SameSegments(WithDateRange(g, st, attrs).value, st)
  {
    hide RangeOf;
  }

  lemma InsideKeeps(g: Setting, st: State, line: string)
    ensures SameSegments(Inside(g, st, line), st)
  {
    hide InnerTag, Attributes, ParsePartialByteRange, WithMap, Behind, EXT_X_MAP, EXT_X_BYTERANGE, EXT_X_PROGRAM_DATE_TIME;
    MapKeeps(g, st, Attributes(Behind(line, EXT_X_MAP), 0, map[]));
  }

  lemma OutsideKeeps(g: Setting, st: State, line: string)
    ensures var o := Outside(g, st, line);
            o.Some? ==> o.value.segments == st.segments && o.value.previousEnd == st.previousEnd
                        && (OuterTag(line) != MediaSequence ==> o.value.mediaSequence == st.mediaSequence)
  {
    hide OuterTag, Attributes, ParsePartialByteRange, WithMap, WithKey, WithDefine, WithDateRange, Behind, Trim,
         EXT_X_MAP, EXT_X_KEY, EXT_X_DEFINE, EXT_X_DATERANGE, EXT_X_BYTERANGE, EXT_X_PROGRAM_DATE_TIME, EXT_X_VERSION,
         EXT_X_PLAYLIST_TYPE, EXT_X_TARGETDURATION, EXT_X_MEDIA_SEQUENCE;
    match OuterTag(line)
    case Map => MapKeeps(g, st, Attributes(Behind(line, EXT_X_MAP), 0, map[]));
    case Key => KeyKeeps(st, Attributes(Behind(line, EXT_X_KEY), 0, map[]));
    case Define => DefineKeeps(g, st, Attributes(Behind(line, EXT_X_DEFINE), 0, map[]));
    case DateRangeTag => DateRangeKeeps(g, st, Attributes(Behind(line, EXT_X_DATERANGE), 0, map[]));
    case _ =>
  }

  lemma TagKeeps(g: Setting, st: State, line: string)
    ensures SameSegments(Inside(g, st, line), st)
    ensures var o := Outside(g, st, line); o.Some? ==> o.value.segments == st.segments && o.value.previousEnd == st.previousEnd
    ensures var o := Outside(g, st, line); o.Some? && OuterTag(line) != MediaSequence ==> o.value.mediaSequence == st.mediaSequence
  {
    hide OuterTag, Inside, Outside, SameSegments;
    InsideKeeps(g, st, line);
    OutsideKeeps(g, st, line);
  }

  lemma StepRanges(g: Setting, m: Machine, line: string, taken: seq<Option<PartialByteRange>>)
    requires RangesKept(m.state, taken)
    ensures var r := Step(g, m, line);
            r.Some? ==> RangesKept(r.value.state, if m.mode != Outer && r.value.mode == Outer then taken + [m.state.byteRange] else taken)
  {
    hide Outside, Inside, OuterTag, SubstituteVars, Push, DurationOf, RangeAt;
    TagKeeps(g, m.state, line);
    match m.mode
    case Outer =>
    case Waiting(duration) =>
      if !Has(line, "#") {
        var uri := SubstituteVars(line, m.state.defines);
        if uri.Some? { PushKeeps(m.state, taken, duration, uri.value); }
      }
  }

  lemma {:induction false} FoldRanges(g: Setting, m: Machine, lines: seq<string>, taken: seq<Option<PartialByteRange>>)
    requires RangesKept(m.state, taken)
    ensures var r := Fold(g, m, lines);
            r.Some? ==> RangesKept(Finish(r.value), taken + Taken(g, m, lines))
    decreases |lines|
  {
    hide Step, RangesKept, Push;
    if lines == [] {
      assert taken + [] == taken;
      if m.mode != Outer { PushKeeps(m.state, taken, m.mode.duration, ""); }
    } else {
      var m1 := Step(g, m, lines[0]);
      if m1.Some? {
        StepRanges(g, m, lines[0], taken);
        var one := if m.mode != Outer && m1.value.mode == Outer then [m.state.byteRange] else [];
        assert taken + [] == taken;
        FoldRanges(g, m1.value, lines[1..], taken + one);
        assert (taken + one) + Taken(g, m1.value, lines[1..]) == taken + (one + Taken(g, m1.value, lines[1..]));
      }
    }
  }

  /** Every segment's range is the one its BYTERANGE line names, an omitted offset starting where the range of the
      segment before ends. */
  lemma RangesAreKept(g: Setting, lines: seq<string>)
    requires Playlist(g, lines).Some?
    ensures var taken := Taken(g, Machine(Fresh(g), Outer), lines);
            var segments := Playlist(g, lines).value.segments;
            |segments| == |taken| && forall k :: 0 <= k < |taken| ==> segments[k].byteRange == RangeAt(taken, k)
  {
    hide Fold, Taken;
    FoldRanges(g, Machine(Fresh(g), Outer), lines, []);
    var taken := Taken(g, Machine(Fresh(g), Outer), lines);
    assert [] + taken == taken;
  }

  /** The ranges from `i` to `j` follow on each other. */
  predicate Following(taken: seq<Option<PartialByteRange>>, i: nat, j: nat)
    requires i <= j < |taken|
  {
    taken[i].Some? && forall k :: i < k <= j ==> taken[k].Some? && taken[k].value.offset.None?
  }

  function Lengths(taken: seq<Option<PartialByteRange>>, i: nat, j: nat): Num
    requires i <= j < |taken| && Following(taken, i, j)
    decreases j
  {
    if i == j then Some(0.0) else Plus(Lengths(taken, i, j - 1), taken[j - 1].value.length)
  }

  /** Runs of omitted offsets tile without gaps: the last range of a run starts where the first one starts, plus all
      lengths between. */
  lemma {:induction false} RunsTile(taken: seq<Option<PartialByteRange>>, i: nat, j: nat)
    requires i <= j < |taken| && Following(taken, i, j)
    ensures RangeAt(taken, i).Some? && RangeAt(taken, j).Some?
    ensures RangeAt(taken, i).value.offset.Some? ==>
              RangeAt(taken, j).value.offset == Plus(RangeAt(taken, i).value.offset, Lengths(taken, i, j))
    decreases j
  {
    if i < j { RunsTile(taken, i, j - 1); }
  }

  // ------------------------------------------------------------------ sequence numbers

  predicate NumberedFrom(st: State, n: nat)
  {
    n <= |st.segments| && forall k :: n <= k < |st.segments| ==> st.segments[k].sequenceNumber == Plus(st.mediaSequence, Some(k as real))
  }

  lemma {:induction false} FoldNumbers(g: Setting, m: Machine, lines: seq<string>, n: nat)
    requires NumberedFrom(m.state, n) && forall l :: l in lines ==> OuterTag(l) != MediaSequence
    ensures var r := Fold(g, m, lines);
            r.Some? ==> NumberedFrom(Finish(r.value), n) && Finish(r.value).mediaSequence == m.state.mediaSequence
    decreases |lines|
  {
    hide Outside, Inside, OuterTag, SubstituteVars, DurationOf, Step;
    if lines != [] {
      assert lines[0] in lines;
      StepNumbers(g, m, lines[0], n);
      var m1 := Step(g, m, lines[0]);
      if m1.Some? {
        assert forall l :: l in lines[1..] ==> l in lines;
        FoldNumbers(g, m1.value, lines[1..], n);
      }
    }
  }

  lemma StepNumbers(g: Setting, m: Machine, line: string, n: nat)
    requires NumberedFrom(m.state, n) && OuterTag(line) != MediaSequence
    ensures var r := Step(g, m, line); r.Some? ==> NumberedFrom(r.value.state, n) && r.value.state.mediaSequence == m.state.mediaSequence
  {
    hide Outside, Inside, OuterTag, SubstituteVars, DurationOf, Push, NumberedFrom;
    TagKeeps(g, m.state, line);
    match m.mode
    case Outer =>
      var o := Outside(g, m.state, line);
      if o.Some? { NumbersKept(m.state, o.value, n); }
    case Waiting(duration) =>
      NumbersKept(m.state, Inside(g, m.state, line), n);
      var uri := SubstituteVars(line, m.state.defines);
      if uri.Some? { PushNumbers(m.state, duration, uri.value, n); }
  }

  lemma NumbersKept(st: State, t: State, n: nat)
    requires NumberedFrom(st, n) && t.segments == st.segments && t.mediaSequence == st.mediaSequence
    ensures NumberedFrom(t, n)
  {
  }

  lemma PushNumbers(st: State, duration: Num, uri: string, n: nat)
    requires NumberedFrom(st, n)
    ensures NumberedFrom(Push(st, duration, uri), n) && Push(st, duration, uri).mediaSequence == st.mediaSequence
  {
    hide Placed, EndOf;
  }

  /** Before the first EXTINF line there is no segment. */
  lemma {:induction false} NoSegments(g: Setting, m: Machine, lines: seq<string>)
    requires m.mode == Outer && m.state.segments == [] && forall l :: l in lines ==> OuterTag(l) != Extinf
    ensures var r := Fold(g, m, lines); r.Some? ==> r.value.mode == Outer && r.value.state.segments == []
    decreases |lines|
  {
    hide Outside, OuterTag;
    if lines != [] {
      assert lines[0] in lines;
      TagKeeps(g, m.state, lines[0]);
      var m1 := Step(g, m, lines[0]);
      if m1.Some? {
        assert forall l :: l in lines[1..] ==> l in lines;
        NoSegments(g, m1.value, lines[1..]);
      }
    }
  }

  /** When MEDIA-SEQUENCE comes before all segments, segment `k` has its number plus `k`. */
  lemma SegmentsAreNumbered(g: Setting, head: seq<string>, tail: seq<string>)
    requires forall l :: l in head ==> OuterTag(l) != Extinf
    requires forall l :: l in tail ==> OuterTag(l) != MediaSequence
    requires Playlist(g, head + tail).Some?
    ensures var p := Playlist(g, head + tail).value;
            forall k :: 0 <= k < |p.segments| ==> p.segments[k].sequenceNumber == Plus(p.mediaSequence, Some(k as real))
  {
    hide Fold, OuterTag;
    var m := Machine(Fresh(g), Outer);
    FoldAppend(g, m, head, tail);
    NoSegments(g, m, head);
    var m1 := Fold(g, m, head).value;
    FoldNumbers(g, m1, tail, 0);
  }

  // ------------------------------------------------------------------ from lines to text

  predicate Clean(line: string)
  {
    line != "" && Trim(line) == line && forall c :: c in line ==> NotBreak(c)
  }

  function Join(lines: seq<string>): string
  {
    if lines == [] then "" else lines[0] + ("\n" + Join(lines[1..]))
  }

  lemma {:induction false} TrimEndShortens(s: string)
    ensures |TrimEnd(s)| <= |s|
    decreases |s|
  {
    if s != [] && IsTrimmed(s[|s| - 1]) { TrimEndShortens(s[..|s| - 1]); }
  }

  lemma {:induction false} TrimStartShortens(s: string)
    ensures |TrimStart(s)| <= |s|
  {
    if s != [] && IsTrimmed(s[0]) { TrimStartShortens(s[1..]); }
  }

  lemma CleanStart(line: string)
    requires Clean(line)
    ensures !IsWhite(line[0])
  {
    if IsTrimmed(line[0]) {
      TrimStartShortens(line[1..]);
      TrimEndShortens(TrimStart(line));
    }
  }

  lemma OneLine(s: string, pos: nat, line: string, rest: string)
    requires Clean(line) && pos <= |s| && s[pos..] == line + ("\n" + rest)
    ensures pos + |line| < |s| && s[pos + |line| + 1..] == rest
    ensures Lines(s, pos) == [line] + Lines(s, pos + |line| + 1)
  {
    hide Trim, RunEnd, IsWhite, Lines;
    CleanStart(line);
    Here(s, pos, line, "\n" + rest);
    assert s[pos] == line[0] && line[0] in line;
    NotBlank(s, pos);
    Broken();
    RunOver(s, pos, line, "\n" + rest, NotBreak);
    var e := pos + |line|;
    Here(s, e, "\n", rest);
    assert s[e] == '\n';
    LinesStep(s, pos);
  }

  lemma {:induction false} LinesBack(s: string, pos: nat, lines: seq<string>)
    requires (forall l :: l in lines ==> Clean(l)) && pos <= |s| && s[pos..] == Join(lines)
    ensures Lines(s, pos) == lines
    decreases |lines|
  {
    hide Clean, Lines;
    if lines == [] {
      NoLine(s, pos);
    } else {
      var line, rest := lines[0], lines[1..];
      assert line in lines;
      assert forall l :: l in rest ==> l in lines;
      OneLine(s, pos, line, Join(rest));
      LinesBack(s, pos + |line| + 1, rest);
      assert lines == [line] + rest;
    }
  }

  lemma NoLine(s: string, pos: nat)
    requires pos >= |s|
    ensures Lines(s, pos) == []
  {
  }

  lemma Broken()
    ensures !NotBreak('\n')
  {
  }

  lemma NotBlank(s: string, pos: nat)
    requires pos < |s| && !IsWhite(s[pos]) && NotBreak(s[pos])
    ensures !BlankLine(s, pos)
  {
  }

  /** Behind the header and its line ending the lines begin. */
  lemma HeaderEnds(text: string, rest: string)
    requires text == EXTM3U + ("\n" + rest)
    ensures StartsAt(text, 0, EXTM3U) && |EXTM3U| == 7
    ensures RunEnd(text, 7, NotBreak) == 7 && BehindBreak(text, 7) == 8 && text[8..] == rest
  {
    hide RunEnd, EXTM3U;
    HeaderStart(text);
    assert text[0..] == text;
    Here(text, 0, EXTM3U, "\n" + rest);
    Broken();
    assert text[7..] == "" + ("\n" + rest);
    RunOver(text, 7, "", "\n" + rest, NotBreak);
    Here(text, 7, "\n", rest);
    assert text[7] == '\n';
  }

  /** A text of clean lines behind the header says what its lines say. */
  lemma TextIsLines(g: Setting, lines: seq<string>)
    requires forall l :: l in lines ==> Clean(l)
    ensures Parsed(g, EXTM3U + ("\n" + Join(lines))) == Playlist(g, lines)
  {
    hide Lines, RunEnd, Playlist, Clean, EXTM3U, Join, BehindBreak, StartsAt;
    var text := EXTM3U + ("\n" + Join(lines));
    HeaderStart(text);
    HeaderEnds(text, Join(lines));
    LinesBack(text, 8, lines);
  }

  lemma HeaderStart(text: string)
    requires EXTM3U <= text
    ensures RunEnd(text, 0, IsWhite) == 0 && |EXTM3U| == 7
  {
    assert text[0] == EXTM3U[0] == '#';
  }
}

/**
 The HLS media playlist parser (RFC 8216): a line-driven state machine with pending tags, and two code paths for
 the tags that may stand before or behind a segment's EXTINF line.
 */
module Hls {
  import opened Strings
  import opened Wrappers

  /** A number as the text reads, or not a number. */
  type Num = Option<real>

  function Plus(a: Num, b: Num): Num
  {
    if a.Some? && b.Some? then Some(a.value + b.value) else None
  }

  /** How texts read as numbers, and the variables a playlist may import. */
  datatype Setting = Setting(num: string -> Num, variables: map<string, string>, queryParams: map<string, string>)

  // ------------------------------------------------------------------ lines

  predicate NotBreak(c: char) { c != '\n' && c != '\r' }

  predicate IsBlank(c: char) { IsWhite(c) && NotBreak(c) }

  /** Behind a line ending, of one or two characters. */
  function BehindBreak(s: string, pos: nat): (n: nat)
    ensures pos <= n && (pos < |s| && !NotBreak(s[pos]) ==> pos < n)
  {
    var p := if CharAt(s, pos) == Some('\r') then pos + 1 else pos;
    if CharAt(s, p) == Some('\n') then p + 1 else p
  }

  /** Only white space up to the end of the line. */
  predicate BlankLine(s: string, pos: nat)
  {
    var b := RunEnd(s, pos, IsBlank);
    b >= |s| || !NotBreak(s[b])
  }

  /** The lines that are not blank, trimmed. */
  function Lines(s: string, pos: nat): seq<string>
    decreases |s| - pos
  {
    if pos >= |s| then []
    else if BlankLine(s, pos) then Lines(s, BehindBreak(s, RunEnd(s, pos, IsBlank)))
    else
      var e := RunEnd(s, pos, NotBreak);
      Starts(s, pos);
      [Trim(Sub(s, pos, e))] + Lines(s, BehindBreak(s, e))
  }

  lemma Starts(s: string, pos: nat)
    requires pos < |s| && !BlankLine(s, pos)
    ensures pos < RunEnd(s, pos, NotBreak)
  {
  }

  /** Reads a line and its ending. */
  method ReadLine(reader: StringReader) returns (line: string)
    modifies reader`position
    ensures var e := RunEnd(reader.data, old(reader.position), NotBreak);
            line == Sub(reader.data, old(reader.position), e) && reader.position == BehindBreak(reader.data, e)
  {
    line := reader.SubstringWhile(NotBreak);
    var found := reader.CharIf('\r');
    found := reader.CharIf('\n');
  }

  /** Skips a line of white space, or stays. */
  method SkipWhitespaceLine(reader: StringReader) returns (skipped: bool)
    modifies reader`position
    ensures skipped == BlankLine(reader.data, old(reader.position))
    ensures reader.position == if skipped then BehindBreak(reader.data, RunEnd(reader.data, old(reader.position), IsBlank))
                               else old(reader.position)
  {
    var start := reader.While(IsBlank);
    if reader.position >= |reader.data| || !NotBreak(reader.data[reader.position]) {
      var found := reader.CharIf('\r');
      found := reader.CharIf('\n');
      return true;
    }
    reader.position := start;
    return false;
  }

  // ------------------------------------------------------------------ attribute lists

  predicate NotEquals(c: char) { c != '=' }

  predicate NotQuote(c: char) { c != '"' }

  predicate NotComma(c: char) { c != ',' && NotBreak(c) }

  /** The end of the value at `pos`, and where to go on. */
  function ValueText(s: string, pos: nat): string
  {
    if CharAt(s, pos) == Some('"') then Sub(s, pos + 1, RunEnd(s, pos + 1, NotQuote)) else Sub(s, pos, RunEnd(s, pos, NotComma))
  }

  function BehindValue(s: string, pos: nat): (n: nat)
    ensures pos <= n
  {
    if CharAt(s, pos) == Some('"') then
      var e := RunEnd(s, pos + 1, NotQuote);
      if e < |s| then e + 1 else e
    else RunEnd(s, pos, NotComma)
  }

  /** A key that cannot be set on an object: assigning a text to it has no effect. */
  const PROTO := "__proto__"

  function Stored(attrs: map<string, string>, key: string, value: string): map<string, string>
  {
    if key == PROTO then attrs else attrs[key := value]
  }

  /** `KEY=VALUE` pairs separated by commas; the last value of a key counts. */
  function Attributes(s: string, pos: nat, attrs: map<string, string>): map<string, string>
    decreases |s| - pos
  {
    var k := RunEnd(s, pos, NotEquals);
    if pos >= |s| || !NotBreak(s[pos]) || k == pos || k >= |s| then attrs
    else
      var v := BehindValue(s, k + 1);
      Attributes(s, if CharAt(s, v) == Some(',') then v + 1 else v, Stored(attrs, Sub(s, pos, k), ValueText(s, k + 1)))
  }

  /** Any list of attributes is read as it was written, but for `__proto__`. */
  method ParseAttributes(text: string) returns (attrs: map<string, string>)
    ensures attrs == Attributes(text, 0, map[])
    ensures forall list :: AllWritable(list) && text == ListWritten(list) ==> attrs == MapOf(list) - {PROTO}
  {
    hide RunEnd, Attributes, AllWritable, ListWritten, MapOf, Stored, ValueText, BehindValue;
    ListsBack(text);
    var reader := new StringReader(text);
    attrs := map[];
    while reader.position < |text| && NotBreak(text[reader.position])
      invariant Attributes(text, reader.position, attrs) == Attributes(text, 0, map[])
      decreases |text| - reader.position
    {
      var start := reader.position;
      AttributesStep(text, start, attrs);
      var key := reader.SubstringWhile(NotEquals);
      if reader.position == start || reader.position >= |text| { return; }
      var eq := reader.Next();
      var value := ReadValue(reader);
      attrs := Stored(attrs, key, value);
      var comma := reader.CharIf(',');
    }
    AttributesEnd(text, reader.position, attrs);
  }

  method ReadValue(reader: StringReader) returns (value: string)
    modifies reader`position
    ensures value == ValueText(reader.data, old(reader.position)) && reader.position == BehindValue(reader.data, old(reader.position))
  {
    hide RunEnd;
    var quote := reader.CharIf('"');
    if quote {
      value := reader.SubstringWhile(NotQuote);
      if reader.position < |reader.data| { var q := reader.Next(); }
    } else {
      value := reader.SubstringWhile(NotComma);
    }
  }

  lemma AttributesEnd(s: string, pos: nat, attrs: map<string, string>)
    requires pos >= |s| || !NotBreak(s[pos]) || RunEnd(s, pos, NotEquals) == pos || RunEnd(s, pos, NotEquals) >= |s|
    ensures Attributes(s, pos, attrs) == attrs
  {
  }

  lemma AttributesStep(s: string, pos: nat, attrs: map<string, string>)
    ensures var k := RunEnd(s, pos, NotEquals);
            Attributes(s, pos, attrs) ==
              if pos >= |s| || !NotBreak(s[pos]) || k == pos || k >= |s| then attrs
              else
                var v := BehindValue(s, k + 1);
                Attributes(s, if CharAt(s, v) == Some(',') then v + 1 else v, Stored(attrs, Sub(s, pos, k), ValueText(s, k + 1)))
  {
    hide RunEnd, BehindValue, ValueText, Stored;
  }

  /** An attribute as someone writes it; quotes let the value hold commas and line breaks. */
  datatype Attribute = Attribute(key: string, value: string, quoted: bool)
  {
    function ValueWritten(): string { if quoted then "\"" + value + "\"" else value }

    function Written(): string { key + "=" + ValueWritten() }

    predicate Writable()
    {
      && key != "" && NotBreak(key[0]) && (forall c :: c in key ==> NotEquals(c))
      && if quoted then forall c :: c in value ==> NotQuote(c)
         else (forall c :: c in value ==> NotComma(c)) && (value == "" || NotQuote(value[0]))
    }
  }

  function ListWritten(list: seq<Attribute>): string
  {
    if list == [] then "" else list[0].Written() + MoreWritten(list[1..])
  }

  function MoreWritten(list: seq<Attribute>): string
  {
    if list == [] then "" else "," + list[0].Written() + MoreWritten(list[1..])
  }

  predicate AllWritable(list: seq<Attribute>)
  {
    forall a :: a in list ==> a.Writable()
  }

  /** The last value of a key counts. */
  function MapOf(list: seq<Attribute>): map<string, string>
  {
    if list == [] then map[]
    else
      var n := |list| - 1;
      MapOf(list[..n])[list[n].key := list[n].value]
  }

  lemma QuotedBack(s: string, pos: nat, value: string, rest: string)
    requires pos <= |s| && s[pos..] == "\"" + value + "\"" + rest && forall c :: c in value ==> NotQuote(c)
    ensures ValueText(s, pos) == value && BehindValue(s, pos) <= |s| && s[BehindValue(s, pos)..] == rest
  {
    hide RunEnd;
    var q := "\"";
    assert s[pos..] == q + (value + (q + rest));
    Here(s, pos, q, value + (q + rest));
    RunOver(s, pos + 1, value, q + rest, NotQuote);
    Here(s, pos + 1, value, q + rest);
    Here(s, pos + 1 + |value|, q, rest);
  }

  lemma PlainBack(s: string, pos: nat, value: string, rest: string)
    requires pos <= |s| && s[pos..] == value + rest && (forall c :: c in value ==> NotComma(c))
    requires (value == "" || NotQuote(value[0])) && (rest == "" || rest[0] == ',')
    ensures ValueText(s, pos) == value && BehindValue(s, pos) <= |s| && s[BehindValue(s, pos)..] == rest
  {
    hide RunEnd;
    RunOver(s, pos, value, rest, NotComma);
    Here(s, pos, value, rest);
    if pos < |s| { assert s[pos] == s[pos..][0]; }
  }

  lemma ValueBack(s: string, pos: nat, a: Attribute, rest: string)
    requires a.Writable() && pos <= |s| && s[pos..] == a.ValueWritten() + rest
    requires rest == "" || rest[0] == ','
    ensures ValueText(s, pos) == a.value && BehindValue(s, pos) <= |s| && s[BehindValue(s, pos)..] == rest
  {
    hide RunEnd, ValueText, BehindValue;
    if a.quoted { QuotedBack(s, pos, a.value, rest); } else { PlainBack(s, pos, a.value, rest); }
  }

  lemma KeyBack(s: string, pos: nat, a: Attribute, rest: string)
    requires a.Writable() && pos <= |s| && s[pos..] == a.Written() + rest
    ensures var k := pos + |a.key|;
            && pos < k < |s| && NotBreak(s[pos]) && RunEnd(s, pos, NotEquals) == k && Sub(s, pos, k) == a.key
            && s[k + 1..] == a.ValueWritten() + rest
  {
    hide RunEnd, Attribute.ValueWritten;
    var eq := "=";
    var more := a.ValueWritten() + rest;
    assert s[pos..] == a.key + (eq + more);
    RunOver(s, pos, a.key, eq + more, NotEquals);
    Here(s, pos, a.key, eq + more);
    Here(s, pos + |a.key|, eq, more);
    assert s[pos] == s[pos..][0] == a.key[0];
  }

  /** One attribute read, and the comma behind it. */
  lemma AttributeBack(s: string, pos: nat, a: Attribute, rest: string, attrs: map<string, string>)
    requires a.Writable() && pos <= |s| && s[pos..] == a.Written() + rest
    requires rest == "" || rest[0] == ','
    ensures var next := if rest == "" then |s| else |s| - |rest| + 1;
            pos < next <= |s| && Attributes(s, pos, attrs) == Attributes(s, next, Stored(attrs, a.key, a.value))
  {
    hide RunEnd, BehindValue, ValueText, Attributes, Sub, Stored, Attribute.Writable, Attribute.Written, Attribute.ValueWritten;
    KeyBack(s, pos, a, rest);
    var k := pos + |a.key|;
    ValueBack(s, k + 1, a, rest);
    var v := BehindValue(s, k + 1);
    assert |s[v..]| == |rest|;
    if rest != "" { assert s[v] == s[v..][0]; }
    AttributesStep(s, pos, attrs);
  }

  /** What `attrs` becomes when the list is read after it. */
  function Extended(attrs: map<string, string>, list: seq<Attribute>): map<string, string>
    decreases |list|
  {
    if list == [] then attrs else Extended(Stored(attrs, list[0].key, list[0].value), list[1..])
  }

  lemma {:induction false} ListBack(s: string, pos: nat, list: seq<Attribute>, attrs: map<string, string>)
    requires list != [] && AllWritable(list) && pos <= |s| && s[pos..] == ListWritten(list)
    ensures Attributes(s, pos, attrs) == Extended(attrs, list)
    decreases |list|
  {
    hide RunEnd, Attributes, Attribute.Writable, Attribute.Written, Stored;
    var a, more := list[0], list[1..];
    var rest := MoreWritten(more);
    AttributeBack(s, pos, a, rest, attrs);
    var added := Stored(attrs, a.key, a.value);
    assert Extended(attrs, list) == Extended(added, more);
    if more == [] {
      AttributesEnd(s, |s|, added);
    } else {
      var next := |s| - |rest| + 1;
      assert rest == "," + ListWritten(more);
      assert s[next - 1..] == s[pos..][|a.Written()|..] == rest;
      assert s[next..] == s[next - 1..][1..] == ListWritten(more);
      ListBack(s, next, more, added);
    }
  }

  lemma {:induction false} ExtendedIs(attrs: map<string, string>, list: seq<Attribute>)
    requires list != []
    ensures var n := |list| - 1; Extended(attrs, list) == Stored(Extended(attrs, list[..n]), list[n].key, list[n].value)
    decreases |list|
  {
    hide Stored;
    var n := |list| - 1;
    if n > 0 {
      ExtendedIs(Stored(attrs, list[0].key, list[0].value), list[1..]);
      assert list[1..][..n - 1] == list[..n][1..];
    }
  }

  lemma {:induction false} ExtendedIsMap(list: seq<Attribute>)
    ensures Extended(map[], list) == MapOf(list) - {PROTO}
    decreases |list|
  {
    if list != [] {
      ExtendedIs(map[], list);
      ExtendedIsMap(list[..|list| - 1]);
      StoredLess(MapOf(list[..|list| - 1]), list[|list| - 1].key, list[|list| - 1].value);
    }
  }

  lemma StoredLess(m: map<string, string>, key: string, value: string)
    ensures Stored(m - {PROTO}, key, value) == m[key := value] - {PROTO}
  {
    hide PROTO;
  }

  /** The last value of a key is there as soon as the key is. */
  lemma {:induction false} KeysOfMap(list: seq<Attribute>, key: string)
    ensures key in MapOf(list) <==> exists a :: a in list && a.key == key
    decreases |list|
  {
    if list != [] {
      var n := |list| - 1;
      KeysOfMap(list[..n], key);
      assert list == list[..n] + [list[n]];
      if key in MapOf(list[..n]) {
        var a :| a in list[..n] && a.key == key;
        assert a in list;
      }
      if exists a :: a in list && a.key == key {
        var a :| a in list && a.key == key;
        assert a == list[n] || a in list[..n];
      }
      if list[n].key == key { assert list[n] in list; }
    }
  }

  /** Parsing undoes writing, whatever the values hold and whichever way they are quoted, but for a key `__proto__`. */
  lemma AttributesBack(list: seq<Attribute>)
    requires AllWritable(list)
    ensures Attributes(ListWritten(list), 0, map[]) == MapOf(list) - {PROTO}
  {
    var s := ListWritten(list);
    if list != [] {
      hide Attributes, Attribute.Written;
      assert s[0..] == s;
      ListBack(s, 0, list, map[]);
      ExtendedIsMap(list);
    }
  }

  /** So a list comes back exactly when no key in it is `__proto__`. */
  lemma AttributesBackIff(list: seq<Attribute>)
    requires AllWritable(list)
    ensures Attributes(ListWritten(list), 0, map[]) == MapOf(list) <==> forall a :: a in list ==> a.key != PROTO
  {
    hide Attributes, ListWritten, MapOf, AllWritable, PROTO;
    AttributesBack(list);
    KeysOfMap(list, PROTO);
    var m := MapOf(list);
    if PROTO in m { assert PROTO !in m - {PROTO}; } else { assert m - {PROTO} == m; }
  }

  /** `__proto__=x` is read as no attribute at all. */
  lemma ProtoLost()
    ensures Attributes("__proto__=x", 0, map[]) == map[]
  {
    var a := Attribute("__proto__", "x", false);
    assert a.Writable();
    assert ListWritten([a]) == "__proto__=x" by { assert [a][1..] == []; assert "__proto__" + "=" + "x" + "" == "__proto__=x"; }
    hide Attributes;
    AttributesBack([a]);
    assert [a][..0] == [];
    assert MapOf([a]) == map["__proto__" := "x"];
  }

  lemma ListsBack(text: string)
    ensures forall list :: AllWritable(list) && text == ListWritten(list) ==> Attributes(text, 0, map[]) == MapOf(list) - {PROTO}
  {
    hide *;
    forall list | AllWritable(list) && text == ListWritten(list) ensures Attributes(text, 0, map[]) == MapOf(list) - {PROTO} {
      AttributesBack(list);
    }
  }

  /** The value of a key, unless it is missing or empty. */
  function Given(attrs: map<string, string>, key: string): Option<string>
  {
    if key in attrs && attrs[key] != "" then Some(attrs[key]) else None
  }

  // ------------------------------------------------------------------ variables

  predicate NotBrace(c: char) { c != '{' && c != '}' }

  /** Replaces every `{$name}`; an unknown name is an error. */
  function Substitute(s: string, defines: map<string, string>): Option<string>
  {
    if s == "" then Some("")
    else
      var k := RunEnd(s, 2, NotBrace);
      if StartsAt(s, 0, "{$") && 2 < k && CharAt(s, k) == Some('}') then
        if s[2..k] !in defines then None
        else match Substitute(s[k + 1..], defines) case None => None case Some(t) => Some(defines[s[2..k]] + t)
      else match Substitute(s[1..], defines) case None => None case Some(t) => Some([s[0]] + t)
  }

  /** Without definitions nothing is looked for. */
  function SubstituteVars(s: string, defines: map<string, string>): Option<string>
  {
    if defines == map[] then Some(s) else Substitute(s, defines)
  }

  // ------------------------------------------------------------------ the playlist

  /** A byte range whose offset may be omitted. */
  datatype PartialByteRange = PartialByteRange(length: Num, offset: Option<Num>)

  datatype ByteRange = ByteRange(length: Num, offset: Num)

  datatype HlsMap = HlsMap(uri: string, byteRange: Option<ByteRange>)

  datatype EncryptionKey = EncryptionKey(method_: string, uri: Option<string>, iv: Option<string>, keyFormat: Option<string>,
                                         keyFormatVersions: Option<string>)

  datatype Segment = Segment(uri: string, duration: Num, sequenceNumber: Num, key: Option<EncryptionKey>, map_: Option<HlsMap>,
                             byteRange: Option<ByteRange>, discontinuity: bool, programDateTime: Option<string>)

  datatype DateRange = DateRange(id: string, startDate: string, classId: Option<string>, endDate: Option<string>,
                                 duration: Option<Num>, plannedDuration: Option<Num>, endOnNext: bool,
                                 clientAttributes: map<string, string>)

  /** What has been read, and what is pending for the next segment. */
  datatype State = State(version: Num, targetDuration: Num, mediaSequence: Num, playlistType: string, ended: bool,
                         key: Option<EncryptionKey>, map_: Option<HlsMap>, byteRange: Option<PartialByteRange>,
                         previousEnd: Option<Num>, discontinuity: bool, dateTime: string, segments: seq<Segment>,
                         dateRanges: seq<DateRange>, defines: map<string, string>)

  function Fresh(g: Setting): State
  {
    State(Some(1.0), Some(0.0), Some(0.0), "LIVE", false, None, None, None, None, false, "", [], [], g.variables)
  }

  const EXTM3U := "#EXTM3U"
  const EXTINF := "#EXTINF:"
  const EXT_X_TARGETDURATION := "#EXT-X-TARGETDURATION:"
  const EXT_X_MEDIA_SEQUENCE := "#EXT-X-MEDIA-SEQUENCE:"
  const EXT_X_ENDLIST := "#EXT-X-ENDLIST"
  const EXT_X_PLAYLIST_TYPE := "#EXT-X-PLAYLIST-TYPE:"
  const EXT_X_VERSION := "#EXT-X-VERSION:"
  const EXT_X_KEY := "#EXT-X-KEY:"
  const EXT_X_BYTERANGE := "#EXT-X-BYTERANGE:"
  const EXT_X_DISCONTINUITY := "#EXT-X-DISCONTINUITY"
  const EXT_X_PROGRAM_DATE_TIME := "#EXT-X-PROGRAM-DATE-TIME:"
  const EXT_X_MAP := "#EXT-X-MAP:"
  const EXT_X_DEFINE := "#EXT-X-DEFINE:"
  const EXT_X_DATERANGE := "#EXT-X-DATERANGE:"

  /** The tag a line carries, with the text behind it. */
  datatype Tag = Extinf | TargetDuration | MediaSequence | EndList | PlaylistType | Version | Key | Map | Range | Discontinuity
               | DateTime | Define | DateRangeTag | NoTag

  predicate Has(line: string, tag: string)
  {
    tag <= line
  }

  function Behind(line: string, tag: string): string
  {
    if |tag| <= |line| then line[|tag|..] else ""
  }

  /** The order in which the outer loop looks. */
  function OuterTag(line: string): Tag
  {
    if Has(line, EXTINF) then Extinf
    else if Has(line, EXT_X_TARGETDURATION) then TargetDuration
    else if Has(line, EXT_X_MEDIA_SEQUENCE) then MediaSequence
    else if line == EXT_X_ENDLIST then EndList
    else if Has(line, EXT_X_PLAYLIST_TYPE) then PlaylistType
    else if Has(line, EXT_X_VERSION) then Version
    else if Has(line, EXT_X_KEY) then Key
    else if Has(line, EXT_X_MAP) then Map
    else if Has(line, EXT_X_BYTERANGE) then Range
    else if line == EXT_X_DISCONTINUITY then Discontinuity
    else if Has(line, EXT_X_PROGRAM_DATE_TIME) then DateTime
    else if Has(line, EXT_X_DEFINE) then Define
    else if Has(line, EXT_X_DATERANGE) then DateRangeTag
    else NoTag
  }

  /** The order in which the loop between EXTINF and the address looks; all other tags mean nothing there. */
  function InnerTag(line: string): Tag
  {
    if Has(line, EXT_X_BYTERANGE) then Range
    else if line == EXT_X_DISCONTINUITY then Discontinuity
    else if Has(line, EXT_X_PROGRAM_DATE_TIME) then DateTime
    else if Has(line, EXT_X_MAP) then Map
    else NoTag
  }

  predicate NotAt(c: char) { c != '@' }

  /** `n` or `n@o`; a further `@` is not looked at. */
  function ParsePartialByteRange(g: Setting, s: string): PartialByteRange
  {
    var a := RunEnd(s, 0, NotAt);
    PartialByteRange(g.num(Sub(s, 0, a)), if a < |s| then Some(g.num(Sub(s, a + 1, RunEnd(s, a + 1, NotAt)))) else None)
  }

  function ParseByteRangeString(g: Setting, s: string): ByteRange
  {
    var p := ParsePartialByteRange(g, s);
    ByteRange(p.length, match p.offset case None => Some(0.0) case Some(o) => o)
  }

  function WithMap(g: Setting, st: State, attrs: map<string, string>): State
  {
    match Given(attrs, "URI")
    case None => st
    case Some(uri) =>
      st.(map_ := Some(HlsMap(uri, match Given(attrs, "BYTERANGE") case None => None
                                   case Some(r) => Some(ParseByteRangeString(g, r)))))
  }

  predicate IsMethod(s: string)
  {
    s == "NONE" || s == "AES-128" || s == "SAMPLE-AES" || s == "SAMPLE-AES-CTR"
  }

  /** A key with an unknown method is an error. */
  function WithKey(st: State, attrs: map<string, string>): Option<State>
  {
    if "METHOD" in attrs && IsMethod(attrs["METHOD"]) then
      Some(st.(key := Some(EncryptionKey(attrs["METHOD"], Given(attrs, "URI"), Given(attrs, "IV"), Given(attrs, "KEYFORMAT"),
                                         Given(attrs, "KEYFORMATVERSIONS")))))
    else None
  }

  function Bind(defines: map<string, string>, from: map<string, string>, name: string): map<string, string>
  {
    if name in from then defines[name := from[name]] else defines
  }

  function WithDefine(g: Setting, st: State, attrs: map<string, string>): State
  {
    match (Given(attrs, "IMPORT"), Given(attrs, "QUERYPARAM"))
    case (Some(name), _) => st.(defines := Bind(st.defines, g.variables, name))
    case (None, Some(name)) => st.(defines := Bind(st.defines, g.queryParams, name))
    case (None, None) =>
      if Given(attrs, "NAME").Some? && Given(attrs, "VALUE").Some? then st.(defines := st.defines[attrs["NAME"] := attrs["VALUE"]])
      else st
  }

  const RESERVED := {"ID", "CLASS", "START-DATE", "END-DATE", "DURATION", "PLANNED-DURATION", "END-ON-NEXT"}

  function Usable(attrs: map<string, string>): bool
  {
    Given(attrs, "ID").Some? && (Given(attrs, "START-DATE").Some? || ("END-ON-NEXT" in attrs && attrs["END-ON-NEXT"] == "YES"))
  }

  /** Every value substituted, or an error. */
  predicate AllSubstitute(attrs: map<string, string>, keys: set<string>, defines: map<string, string>)
  {
    forall k :: k in keys && k in attrs ==> SubstituteVars(attrs[k], defines).Some?
  }

  function Substituted(attrs: map<string, string>, keys: set<string>, defines: map<string, string>): map<string, string>
    requires AllSubstitute(attrs, keys, defines)
  {
    map k | k in keys && k in attrs :: SubstituteVars(attrs[k], defines).value
  }

  /** A number, if its text is given. */
  function Read(g: Setting, text: Option<string>): Option<Num>
  {
    match text case None => None case Some(t) => Some(g.num(t))
  }

  /** The error of an unknown variable, nothing when the range is not usable, or the range. */
  function RangeOf(g: Setting, attrs: map<string, string>, defines: map<string, string>): Option<Option<DateRange>>
  {
    if !Usable(attrs) then Some(None)
    else if !AllSubstitute(attrs, attrs.Keys - RESERVED, defines) then None
    else
      Some(Some(DateRange(attrs["ID"], match Given(attrs, "START-DATE") case None => "" case Some(d) => d, Given(attrs, "CLASS"),
                          Given(attrs, "END-DATE"), Read(g, Given(attrs, "DURATION")), Read(g, Given(attrs, "PLANNED-DURATION")),
                          "END-ON-NEXT" in attrs && attrs["END-ON-NEXT"] == "YES",
                          Substituted(attrs, attrs.Keys - RESERVED, defines))))
  }

  function WithDateRange(g: Setting, st: State, attrs: map<string, string>): Option<State>
  {
    match RangeOf(g, attrs, st.defines)
    case None => None
    case Some(None) => Some(st)
    case Some(Some(range)) => Some(st.(dateRanges := st.dateRanges + [range]))
  }

  /** A date range as someone writes it: the numbers as texts. */
  datatype RangeText = RangeText(range: DateRange, duration: Option<string>, plannedDuration: Option<string>)

  /** The attribute of this name that stands in a date range. */
  function FieldOf(r: RangeText, name: string): Option<string>
  {
    if name == "ID" then Some(r.range.id)
    else if name == "START-DATE" then if r.range.startDate == "" then None else Some(r.range.startDate)
    else if name == "CLASS" then r.range.classId
    else if name == "END-DATE" then r.range.endDate
    else if name == "DURATION" then r.duration
    else if name == "PLANNED-DURATION" then r.plannedDuration
    else if name == "END-ON-NEXT" then if r.range.endOnNext then Some("YES") else None
    else if name in r.range.clientAttributes then Some(r.range.clientAttributes[name]) else None
  }

  /** The attributes of a date range, all of them and no others. */
  ghost predicate Says(attrs: map<string, string>, r: RangeText)
  {
    forall name :: FieldOf(r, name) == if name in attrs then Some(attrs[name]) else None
  }

  /** The texts are those of the numbers, optional fields are not empty, and no client attribute has a name of the range
      itself. */
  predicate Expressible(g: Setting, r: RangeText)
  {
    && r.range.duration == Read(g, r.duration) && r.range.plannedDuration == Read(g, r.plannedDuration)
    && r.range.classId != Some("") && r.range.endDate != Some("") && r.duration != Some("") && r.plannedDuration != Some("")
    && r.range.clientAttributes.Keys !! RESERVED
  }

  /** A range needs an id, and a start date unless it ends on the next one. */
  predicate Complete(r: DateRange)
  {
    r.id != "" && (r.startDate != "" || r.endOnNext)
  }

  predicate ClientsKnown(r: DateRange, defines: map<string, string>)
  {
    forall k :: k in r.clientAttributes ==> SubstituteVars(r.clientAttributes[k], defines).Some?
  }

  function ClientsSubstituted(r: DateRange, defines: map<string, string>): DateRange
    requires ClientsKnown(r, defines)
  {
    r.(clientAttributes := map k | k in r.clientAttributes :: SubstituteVars(r.clientAttributes[k], defines).value)
  }

  lemma ClassField(r: RangeText)
    ensures FieldOf(r, "CLASS") == r.range.classId
  {
  }

  lemma EndDateField(r: RangeText)
    ensures FieldOf(r, "END-DATE") == r.range.endDate
  {
  }

  lemma DurationField(r: RangeText)
    ensures FieldOf(r, "DURATION") == r.duration
  {
  }

  lemma PlannedField(r: RangeText)
    ensures FieldOf(r, "PLANNED-DURATION") == r.plannedDuration
  {
  }

  lemma EndOnNextField(r: RangeText)
    ensures FieldOf(r, "END-ON-NEXT") == if r.range.endOnNext then Some("YES") else None
  {
  }

  lemma ClientField(g: Setting, r: RangeText, name: string)
    requires Expressible(g, r)
    ensures name !in RESERVED ==>
              FieldOf(r, name) == if name in r.range.clientAttributes then Some(r.range.clientAttributes[name]) else None
    ensures name in r.range.clientAttributes ==> name !in RESERVED
  {
  }

  lemma FieldsGiven(g: Setting, r: RangeText, attrs: map<string, string>)
    requires Expressible(g, r) && Says(attrs, r)
    ensures Given(attrs, "CLASS") == r.range.classId && Given(attrs, "END-DATE") == r.range.endDate
    ensures Given(attrs, "DURATION") == r.duration && Given(attrs, "PLANNED-DURATION") == r.plannedDuration
    ensures "END-ON-NEXT" in attrs && attrs["END-ON-NEXT"] == "YES" <==> r.range.endOnNext
  {
    hide FieldOf;
    ClassField(r);
    EndDateField(r);
    DurationField(r);
    PlannedField(r);
    EndOnNextField(r);
  }

  lemma NameAndStart(r: RangeText)
    ensures FieldOf(r, "ID") == Some(r.range.id)
    ensures FieldOf(r, "START-DATE") == if r.range.startDate == "" then None else Some(r.range.startDate)
  {
  }

  lemma ClientsAre(g: Setting, r: RangeText, attrs: map<string, string>, defines: map<string, string>)
    requires Expressible(g, r) && Says(attrs, r)
    ensures AllSubstitute(attrs, attrs.Keys - RESERVED, defines) <==> ClientsKnown(r.range, defines)
    ensures ClientsKnown(r.range, defines) ==>
              Substituted(attrs, attrs.Keys - RESERVED, defines) == ClientsSubstituted(r.range, defines).clientAttributes
  {
    hide FieldOf, SubstituteVars, Expressible;
    forall name ensures name in attrs.Keys - RESERVED <==> name in r.range.clientAttributes
                ensures name in r.range.clientAttributes ==> name in attrs && attrs[name] == r.range.clientAttributes[name]
    {
      ClientField(g, r, name);
      assert FieldOf(r, name) == if name in attrs then Some(attrs[name]) else None;
    }
  }

  lemma NumbersAre(g: Setting, r: RangeText)
    requires Expressible(g, r)
    ensures r.range.duration == Read(g, r.duration) && r.range.plannedDuration == Read(g, r.plannedDuration)
  {
  }

  lemma RangeIs(g: Setting, r: RangeText, attrs: map<string, string>, defines: map<string, string>)
    requires Expressible(g, r) && Says(attrs, r)
    ensures RangeOf(g, attrs, defines)
         == if !Complete(r.range) then Some(None)
            else if ClientsKnown(r.range, defines) then Some(Some(ClientsSubstituted(r.range, defines)))
            else None
  {
    FieldsGiven(g, r, attrs);
    ClientsAre(g, r, attrs, defines);
    NameAndStart(r);
    NumbersAre(g, r);
    hide FieldOf, SubstituteVars, Expressible, AllSubstitute, Substituted, ClientsKnown;
  }

  /** The range without a client attribute `__proto__`. */
  function WithoutProto(r: DateRange): DateRange
  {
    r.(clientAttributes := r.clientAttributes - {PROTO})
  }

  lemma SaysLess(g: Setting, r: RangeText, attrs: map<string, string>)
    requires Expressible(g, r) && Says(attrs, r)
    ensures var less := r.(range := WithoutProto(r.range)); Expressible(g, less) && Says(attrs - {PROTO}, less)
  {
    var less := r.(range := WithoutProto(r.range));
    forall name ensures FieldOf(less, name) == if name in attrs - {PROTO} then Some((attrs - {PROTO})[name]) else None {
      FieldLess(r, name);
      ProtoIsClient(r);
      assert FieldOf(r, name) == if name in attrs then Some(attrs[name]) else None;
    }
  }

  lemma FieldLess(r: RangeText, name: string)
    ensures name != PROTO ==> FieldOf(r.(range := WithoutProto(r.range)), name) == FieldOf(r, name)
  {
  }

  lemma ProtoIsClient(r: RangeText)
    ensures FieldOf(r.(range := WithoutProto(r.range)), PROTO) == None
  {
  }

  /** A date range written as attributes, in any order and quoting, is read back with the variables of its client attributes
      replaced, but for a client attribute `__proto__`; an unknown variable is an error, and an incomplete range is passed
      over. */
  lemma DateRangeBack(g: Setting, r: RangeText, list: seq<Attribute>, defines: map<string, string>)
    requires Expressible(g, r) && AllWritable(list) && Says(MapOf(list), r)
    ensures var range := WithoutProto(r.range);
            RangeOf(g, Attributes(ListWritten(list), 0, map[]), defines)
            == if !Complete(range) then Some(None)
               else if ClientsKnown(range, defines) then Some(Some(ClientsSubstituted(range, defines)))
               else None
  {
    hide *;
    AttributesBack(list);
    SaysLess(g, r, MapOf(list));
    RangeIs(g, r.(range := WithoutProto(r.range)), MapOf(list) - {PROTO}, defines);
  }

  /** Without variables exactly the complete ranges come back that have no client attribute `__proto__`. */
  lemma DateRangeBackIff(g: Setting, r: RangeText, list: seq<Attribute>)
    requires Expressible(g, r) && AllWritable(list) && Says(MapOf(list), r)
    ensures RangeOf(g, Attributes(ListWritten(list), 0, map[]), map[]) == Some(Some(r.range))
       <==> Complete(r.range) && PROTO !in r.range.clientAttributes
  {
    hide Attributes, ListWritten, MapOf, Says, Expressible, RangeOf, PROTO;
    DateRangeBack(g, r, list, map[]);
    var range := WithoutProto(r.range);
    assert ClientsKnown(range, map[]);
    assert ClientsSubstituted(range, map[]).clientAttributes == range.clientAttributes;
    assert ClientsSubstituted(range, map[]) == range;
    if PROTO !in r.range.clientAttributes { assert range.clientAttributes == r.range.clientAttributes; }
    else { assert PROTO !in range.clientAttributes; }
  }

  /** A tag outside of a segment. */
  function Outside(g: Setting, st: State, line: string): Option<State>
  {
    match OuterTag(line)
    case TargetDuration => Some(st.(targetDuration := g.num(Behind(line, EXT_X_TARGETDURATION))))
    case MediaSequence => Some(st.(mediaSequence := g.num(Behind(line, EXT_X_MEDIA_SEQUENCE))))
    case EndList => Some(st.(ended := true))
    case PlaylistType =>
      var v := Trim(Behind(line, EXT_X_PLAYLIST_TYPE));
      Some(if v == "VOD" || v == "EVENT" then st.(playlistType := v) else st)
    case Version => Some(st.(version := g.num(Behind(line, EXT_X_VERSION))))
    case Key => WithKey(st, Attributes(Behind(line, EXT_X_KEY), 0, map[]))
    case Map => Some(WithMap(g, st, Attributes(Behind(line, EXT_X_MAP), 0, map[])))
    case Range => Some(st.(byteRange := Some(ParsePartialByteRange(g, Behind(line, EXT_X_BYTERANGE)))))
    case Discontinuity => Some(st.(discontinuity := true))
    case DateTime => Some(st.(dateTime := Behind(line, EXT_X_PROGRAM_DATE_TIME)))
    case Define => Some(WithDefine(g, st, Attributes(Behind(line, EXT_X_DEFINE), 0, map[])))
    case DateRangeTag => WithDateRange(g, st, Attributes(Behind(line, EXT_X_DATERANGE), 0, map[]))
    case _ => Some(st)
  }

  /** A tag between EXTINF and the address. */
  function Inside(g: Setting, st: State, line: string): State
  {
    match InnerTag(line)
    case Range => st.(byteRange := Some(ParsePartialByteRange(g, Behind(line, EXT_X_BYTERANGE))))
    case Discontinuity => st.(discontinuity := true)
    case DateTime => st.(dateTime := Behind(line, EXT_X_PROGRAM_DATE_TIME))
    case Map => WithMap(g, st, Attributes(Behind(line, EXT_X_MAP), 0, map[]))
    case _ => st
  }

  /** The range of a segment: an omitted offset goes on where the previous segment's range ended. */
  function Placed(p: Option<PartialByteRange>, previousEnd: Option<Num>): Option<ByteRange>
  {
    match p
    case None => None
    case Some(r) =>
      Some(ByteRange(r.length, match r.offset case Some(o) => o
                               case None => match previousEnd case Some(e) => e case None => Some(0.0)))
  }

  function EndOf(r: Option<ByteRange>): Option<Num>
  {
    match r case None => None case Some(b) => Some(Plus(b.offset, b.length))
  }

  /** The segment with everything that was pending, which is pending no more. */
  function Push(st: State, duration: Num, uri: string): State
  {
    var range := Placed(st.byteRange, st.previousEnd);
    st.(segments := st.segments + [Segment(uri, duration, Plus(st.mediaSequence, Some(|st.segments| as real)), st.key, st.map_, range,
                                           st.discontinuity, if st.dateTime == "" then None else Some(st.dateTime))],
        previousEnd := EndOf(range), byteRange := None, discontinuity := false, dateTime := "")
  }

  // ------------------------------------------------------------------ the machine

  /** Behind EXTINF the machine waits for an address. */
  datatype Mode = Outer | Waiting(duration: Num)

  datatype Machine = Machine(state: State, mode: Mode)

  predicate NotCommaChar(c: char) { c != ',' }

  function DurationOf(g: Setting, line: string): Num
  {
    var d := Behind(line, EXTINF);
    g.num(Sub(d, 0, RunEnd(d, 0, NotCommaChar)))
  }

  function Step(g: Setting, m: Machine, line: string): Option<Machine>
  {
    match m.mode
    case Outer =>
      if line == "" then Some(m)
      else if OuterTag(line).Extinf? then Some(Machine(m.state, Waiting(DurationOf(g, line))))
      else (match Outside(g, m.state, line) case None => None case Some(st) => Some(Machine(st, Outer)))
    case Waiting(duration) =>
      if Has(line, "#") then Some(Machine(Inside(g, m.state, line), m.mode))
      else
        match SubstituteVars(line, m.state.defines)
        case None => None
        case Some(uri) => Some(Machine(Push(m.state, duration, uri), Outer))
  }

  function Fold(g: Setting, m: Machine, lines: seq<string>): Option<Machine>
    decreases |lines|
  {
    if lines == [] then Some(m)
    else match Step(g, m, lines[0]) case None => None case Some(m1) => Fold(g, m1, lines[1..])
  }

  /** A segment without an address has an empty one. */
  function Finish(m: Machine): State
  {
    match m.mode case Outer => m.state case Waiting(duration) => Push(m.state, duration, "")
  }

  /** What the parser returns. */
  datatype MediaPlaylist = MediaPlaylist(version: Num, targetDuration: Num, mediaSequence: Num, playlistType: string, ended: bool,
                                         segments: seq<Segment>, dateRanges: seq<DateRange>)

  function Returned(st: State): MediaPlaylist
  {
    MediaPlaylist(st.version, st.targetDuration, st.mediaSequence, st.playlistType, st.ended, st.segments, st.dateRanges)
  }

  /** What a playlist of these lines says. */
  function Playlist(g: Setting, lines: seq<string>): Option<MediaPlaylist>
  {
    match Fold(g, Machine(Fresh(g), Outer), lines) case None => None case Some(m) => Some(Returned(Finish(m)))
  }

  /** The whole text: the header, and the lines behind it. */
  function Parsed(g: Setting, text: string): Option<MediaPlaylist>
  {
    var p := RunEnd(text, 0, IsWhite);
    if !StartsAt(text, p, EXTM3U) then None
    else Playlist(g, Lines(text, BehindBreak(text, RunEnd(text, p + |EXTM3U|, NotBreak))))
  }

  // ------------------------------------------------------------------ the parser as it runs

  method ParseHlsDateRange(g: Setting, attrStr: string, defines: map<string, string>) returns (ok: bool, range: Option<DateRange>)
    ensures RangeOf(g, Attributes(attrStr, 0, map[]), defines) == if ok then Some(range) else None
  {
    hide Attributes, AllSubstitute, Substituted, AllWritable, MapOf, ListWritten, RESERVED;
    var attrs := ParseAttributes(attrStr);
    if !Usable(attrs) { return true, None; }
    var clientAttributes;
    ok, clientAttributes := CollectClients(attrs, defines);
    if !ok { return false, None; }
    return true, Some(DateRange(attrs["ID"], match Given(attrs, "START-DATE") case None => "" case Some(d) => d, Given(attrs, "CLASS"),
                                Given(attrs, "END-DATE"), Read(g, Given(attrs, "DURATION")), Read(g, Given(attrs, "PLANNED-DURATION")),
                                "END-ON-NEXT" in attrs && attrs["END-ON-NEXT"] == "YES", clientAttributes));
  }

  /** All attributes that have no meaning of their own, with variables replaced. */
  method CollectClients(attrs: map<string, string>, defines: map<string, string>) returns (ok: bool, clientAttributes: map<string, string>)
    ensures ok <==> AllSubstitute(attrs, attrs.Keys - RESERVED, defines)
    ensures ok ==> clientAttributes == Substituted(attrs, attrs.Keys - RESERVED, defines)
  {
    hide SubstituteVars, RESERVED;
    clientAttributes := map[];
    var keys := attrs.Keys - RESERVED;
    ghost var done: set<string> := {};
    while keys != {}
      invariant done + keys == attrs.Keys - RESERVED
      invariant AllSubstitute(attrs, done, defines) && clientAttributes == Substituted(attrs, done, defines)
      decreases |keys|
    {
      var key :| key in keys;
      var value := SubstituteVars(attrs[key], defines);
      if value.None? { return false, map[]; }
      clientAttributes := clientAttributes[key := value.value];
      keys := keys - {key};
      done := done + {key};
    }
    assert done == attrs.Keys - RESERVED;
    return true, clientAttributes;
  }

  /** A tag line outside of a segment. */
  method ReadOutside(g: Setting, st: State, line: string) returns (after: Option<State>)
    ensures after == Outside(g, st, line)
  {
    hide OuterTag, Attributes, SubstituteVars, Usable, AllSubstitute, Substituted, ParsePartialByteRange, WithMap, WithDefine, WithKey;
    match OuterTag(line)
    case Key =>
      var attrs := ParseAttributes(Behind(line, EXT_X_KEY));
      after := WithKey(st, attrs);
    case Map =>
      var attrs := ParseAttributes(Behind(line, EXT_X_MAP));
      after := Some(WithMap(g, st, attrs));
    case Define =>
      var attrs := ParseAttributes(Behind(line, EXT_X_DEFINE));
      after := Some(WithDefine(g, st, attrs));
    case DateRangeTag =>
      var ok, range := ParseHlsDateRange(g, Behind(line, EXT_X_DATERANGE), st.defines);
      after := if !ok then None else if range.None? then Some(st) else Some(st.(dateRanges := st.dateRanges + [range.value]));
    case _ => after := Outside(g, st, line);
  }

  /** A tag line between EXTINF and the address. */
  method ReadInside(g: Setting, st: State, line: string) returns (after: State)
    ensures after == Inside(g, st, line)
  {
    hide InnerTag, Attributes, ParsePartialByteRange, WithMap;
    match InnerTag(line)
    case Range => after := st.(byteRange := Some(ParsePartialByteRange(g, Behind(line, EXT_X_BYTERANGE))));
    case Discontinuity => after := st.(discontinuity := true);
    case DateTime => after := st.(dateTime := Behind(line, EXT_X_PROGRAM_DATE_TIME));
    case Map =>
      var attrs := ParseAttributes(Behind(line, EXT_X_MAP));
      after := WithMap(g, st, attrs);
    case _ => after := st;
  }

  /** The lines behind EXTINF up to the address of the segment. */
  method ReadSegment(g: Setting, reader: StringReader, state: State, duration: Num) returns (after: Option<State>)
    modifies reader`position
    ensures reader.position >= old(reader.position)
    ensures var lines := Lines(reader.data, old(reader.position));
            && (after.None? ==> Fold(g, Machine(state, Waiting(duration)), lines).None?)
            && (after.Some? ==> FoldEnds(g, Machine(state, Waiting(duration)), lines, Machine(after.value, Outer),
                                         Lines(reader.data, reader.position)))
  {
    hide Lines, Step, Fold, Inside, SubstituteVars, Push, BlankLine, RunEnd;
    var st := state;
    var uri := "";
    var found := false;
    ghost var start := Machine(state, Waiting(duration));
    ghost var lines := Lines(reader.data, reader.position);
    while reader.position < |reader.data| && !found
      invariant reader.position >= old(reader.position)
      invariant !found ==> uri == ""
      invariant if found then FoldEnds(g, start, lines, Machine(Push(st, duration, uri), Outer), Lines(reader.data, reader.position))
                else Fold(g, start, lines) == Fold(g, Machine(st, Waiting(duration)), Lines(reader.data, reader.position))
      decreases !found, |reader.data| - reader.position
    {
      LinesStep(reader.data, reader.position);
      var skipped := SkipWhitespaceLine(reader);
      if !skipped {
        var raw := ReadLine(reader);
        var line := Trim(raw);
        FoldStep(g, Machine(st, Waiting(duration)), line, Lines(reader.data, reader.position));
        WaitingStep(g, st, duration, line);
        if !Has(line, "#") {
          var text := SubstituteVars(line, st.defines);
          if text.None? { return None; }
          uri := text.value;
          found := true;
        } else {
          st := ReadInside(g, st, line);
        }
      }
    }
    if !found { NoLines(g, reader.data, reader.position, Machine(st, Waiting(duration))); }
    return Some(Push(st, duration, uri));
  }

  /** The machine gets to `after` with `rest` still to come; or the lines run out while it waits. */
  ghost predicate FoldEnds(g: Setting, m: Machine, lines: seq<string>, after: Machine, rest: seq<string>)
  {
    || Fold(g, m, lines) == Fold(g, after, rest)
    || (rest == [] && after.mode == Outer && match Fold(g, m, lines) case None => false case Some(last) => Finish(last) == after.state)
  }

  lemma WaitingStep(g: Setting, st: State, duration: Num, line: string)
    ensures Step(g, Machine(st, Waiting(duration)), line) ==
              if Has(line, "#") then Some(Machine(Inside(g, st, line), Waiting(duration)))
              else match SubstituteVars(line, st.defines) case None => None
                   case Some(uri) => Some(Machine(Push(st, duration, uri), Outer))
  {
    hide Inside, SubstituteVars, Push;
  }

  lemma FoldStep(g: Setting, m: Machine, line: string, rest: seq<string>)
    ensures Fold(g, m, [line] + rest) == match Step(g, m, line) case None => None case Some(m1) => Fold(g, m1, rest)
  {
    hide Step;
    assert ([line] + rest)[1..] == rest;
  }

  lemma LinesStep(s: string, pos: nat)
    requires pos < |s|
    ensures var b, e := BehindBreak(s, RunEnd(s, pos, IsBlank)), RunEnd(s, pos, NotBreak);
            if BlankLine(s, pos) then b > pos && Lines(s, pos) == Lines(s, b)
            else e > pos && Lines(s, pos) == [Trim(Sub(s, pos, e))] + Lines(s, BehindBreak(s, e))
  {
    if !BlankLine(s, pos) { Starts(s, pos); }
  }

  lemma NoLines(g: Setting, s: string, pos: nat, m: Machine)
    requires pos >= |s|
    ensures Lines(s, pos) == [] && Fold(g, m, Lines(s, pos)) == Some(m)
  {
  }

  /** The whole playlist; it fails where the text is malformed. */
  method ParseMediaPlaylist(g: Setting, text: string) returns (playlist: Option<MediaPlaylist>)
    ensures playlist == Parsed(g, text)
  {
    hide Lines, Step, Fold, Outside, SubstituteVars, Push, BlankLine, RunEnd, OuterTag, DurationOf, BehindBreak;
    var reader := new StringReader(text);
    var start := reader.While(IsWhite);
    var header := reader.StringIf(EXTM3U);
    if !header { return None; }
    var first := ReadLine(reader);
    var st := Fresh(g);
    ghost var lines := Lines(text, reader.position);
    while reader.position < |text|
      invariant Reached(g, lines, st, Lines(text, reader.position))
      decreases |text| - reader.position
    {
      LinesStep(text, reader.position);
      var skipped := SkipWhitespaceLine(reader);
      if !skipped {
        var raw := ReadLine(reader);
        var line := Trim(raw);
        ghost var rest := Lines(text, reader.position);
        FoldStep(g, Machine(st, Outer), line, rest);
        OuterStep(g, st, line);
        var next: Option<State>;
        if line == "" {
          next := Some(st);
        } else if OuterTag(line).Extinf? {
          next := ReadSegment(g, reader, st, DurationOf(g, line));
        } else {
          next := ReadOutside(g, st, line);
        }
        if next.None? {
          FailedFold(g, lines, st, [line] + rest);
          return None;
        }
        ReachedNext(g, lines, st, [line] + rest, next.value, Lines(text, reader.position));
        st := next.value;
      }
    }
    NoLines(g, text, reader.position, Machine(st, Outer));
    ReachedEnd(g, lines, st, Lines(text, reader.position));
    return Some(Returned(st));
  }

  /** What the playlist says is what it says from `st` on with the lines still to come. */
  ghost predicate Reached(g: Setting, lines: seq<string>, st: State, rest: seq<string>)
  {
    Playlist(g, lines) == match Fold(g, Machine(st, Outer), rest) case None => None case Some(m) => Some(Returned(Finish(m)))
  }

  lemma OuterStep(g: Setting, st: State, line: string)
    ensures Step(g, Machine(st, Outer), line) ==
              if line == "" then Some(Machine(st, Outer))
              else if OuterTag(line).Extinf? then Some(Machine(st, Waiting(DurationOf(g, line))))
              else match Outside(g, st, line) case None => None case Some(st1) => Some(Machine(st1, Outer))
  {
    hide OuterTag, Outside, DurationOf;
  }

  lemma FailedFold(g: Setting, lines: seq<string>, st: State, rest: seq<string>)
    requires Reached(g, lines, st, rest) && Fold(g, Machine(st, Outer), rest).None?
    ensures Playlist(g, lines) == None
  {
  }

  lemma ReachedNext(g: Setting, lines: seq<string>, st: State, rest: seq<string>, st1: State, rest1: seq<string>)
    requires Reached(g, lines, st, rest) && FoldEnds(g, Machine(st, Outer), rest, Machine(st1, Outer), rest1)
    ensures Reached(g, lines, st1, rest1)
  {
  }

  lemma ReachedEnd(g: Setting, lines: seq<string>, st: State, rest: seq<string>)
    requires Reached(g, lines, st, rest) && Fold(g, Machine(st, Outer), rest) == Some(Machine(st, Outer))
    ensures Playlist(g, lines) == Some(Returned(st))
  {
    hide Fold;
  }
}

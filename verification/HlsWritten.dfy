/** Media playlists as someone writes them, and what they say: the parser returns exactly that. */
module HlsWritten {
  import opened Strings
  import opened Wrappers
  import opened Hls
  import opened HlsRuns

  // ------------------------------------------------------------------ playlists

  /** `n` or `n@o`, as texts. */
  datatype Span = Span(length: string, offset: Option<string>)

  /** Part of a text: as it stands, or a variable. */
  datatype Piece = Plain(text: string) | Ref(name: string)

  /** A line that is no address and no EXTINF. A date range says the attributes of `range`, a map the bytes `span`. */
  datatype Note =
    | VersionNote(text: string)
    | TargetNote(text: string)
    | SequenceNote(text: string)
    | TypeNote(text: string)
    | EndNote
    | KeyNote(list: seq<Attribute>)
    | MapNote(list: seq<Attribute>, mapped: Option<Span>)
    | SpanNote(span: Span)
    | DiscontinuityNote
    | DateNote(text: string)
    | DefineNote(list: seq<Attribute>)
    | RangeNote(list: seq<Attribute>, range: RangeText)
    | Comment(line: string)

  /** A segment: notes, EXTINF, notes, and the address. */
  datatype Block = Block(notes: seq<Note>, duration: string, title: Option<string>, inner: seq<Note>, address: seq<Piece>)

  function SpanText(s: Span): string
  {
    match s.offset case None => s.length case Some(o) => s.length + ("@" + o)
  }

  function PiecesText(ps: seq<Piece>): string
  {
    if ps == [] then ""
    else (match ps[0] case Plain(t) => t case Ref(n) => "{$" + (n + "}")) + PiecesText(ps[1..])
  }

  function LineOf(n: Note): string
  {
    match n
    case VersionNote(t) => "#EXT-X-VERSION:" + t
    case TargetNote(t) => "#EXT-X-TARGETDURATION:" + t
    case SequenceNote(t) => "#EXT-X-MEDIA-SEQUENCE:" + t
    case TypeNote(t) => "#EXT-X-PLAYLIST-TYPE:" + t
    case EndNote => "#EXT-X-ENDLIST"
    case KeyNote(list) => "#EXT-X-KEY:" + ListWritten(list)
    case MapNote(list, _) => "#EXT-X-MAP:" + ListWritten(list)
    case SpanNote(s) => "#EXT-X-BYTERANGE:" + SpanText(s)
    case DiscontinuityNote => "#EXT-X-DISCONTINUITY"
    case DateNote(t) => "#EXT-X-PROGRAM-DATE-TIME:" + t
    case DefineNote(list) => "#EXT-X-DEFINE:" + ListWritten(list)
    case RangeNote(list, _) => "#EXT-X-DATERANGE:" + ListWritten(list)
    case Comment(line) => line
  }

  function NoteLines(notes: seq<Note>): seq<string>
  {
    if notes == [] then [] else [LineOf(notes[0])] + NoteLines(notes[1..])
  }

  function ExtinfLine(b: Block): string
  {
    "#EXTINF:" + (b.duration + (match b.title case None => "" case Some(t) => "," + t))
  }

  function BlockLines(b: Block): seq<string>
  {
    NoteLines(b.notes) + ([ExtinfLine(b)] + (NoteLines(b.inner) + [PiecesText(b.address)]))
  }

  function BlocksLines(blocks: seq<Block>): seq<string>
  {
    if blocks == [] then [] else BlockLines(blocks[0]) + BlocksLines(blocks[1..])
  }

  // ------------------------------------------------------------------ what may be written

  const TAGS := {"#EXTINF:", "#EXT-X-TARGETDURATION:", "#EXT-X-MEDIA-SEQUENCE:", "#EXT-X-PLAYLIST-TYPE:", "#EXT-X-VERSION:", "#EXT-X-KEY:",
                 "#EXT-X-MAP:", "#EXT-X-BYTERANGE:", "#EXT-X-PROGRAM-DATE-TIME:", "#EXT-X-DEFINE:", "#EXT-X-DATERANGE:"}

  predicate SpanOk(s: Span)
  {
    '@' !in s.length && (s.offset.Some? ==> '@' !in s.offset.value)
  }

  /** Braces that open no variable. */
  predicate PieceOk(p: Piece)
  {
    match p
    case Plain(t) => forall i :: 0 <= i < |t| && t[i] == '{' ==> i + 1 < |t| && t[i + 1] != '$'
    case Ref(n) => n != "" && forall c :: c in n ==> NotBrace(c)
  }

  /** The last value of a key in a list, if it is not empty. */
  function ValueIn(list: seq<Attribute>, key: string): Option<string>
  {
    if list == [] then None
    else if list[|list| - 1].key == key then
      if list[|list| - 1].value == "" then None else Some(list[|list| - 1].value)
    else ValueIn(list[..|list| - 1], key)
  }

  ghost predicate NoteOk(g: Setting, n: Note)
  {
    match n
    case KeyNote(list) => AllWritable(list)
    case MapNote(list, span) =>
      && AllWritable(list) && (span.Some? ==> SpanOk(span.value))
      && ValueIn(list, "BYTERANGE") == (match span case None => None case Some(s) => Some(SpanText(s)))
    case SpanNote(s) => SpanOk(s)
    case DefineNote(list) => AllWritable(list)
    case RangeNote(list, r) => AllWritable(list) && Expressible(g, r) && Says(MapOf(list), r)
    case Comment(line) =>
      && Has(line, "#") && line != "#EXT-X-ENDLIST" && line != "#EXT-X-DISCONTINUITY" && forall t :: t in TAGS ==> !Has(line, t)
    case _ => true
  }

  ghost predicate NotesOk(g: Setting, notes: seq<Note>)
  {
    forall n :: n in notes ==> NoteOk(g, n)
  }

  /** An address does not look like a tag. */
  ghost predicate BlockOk(g: Setting, b: Block)
  {
    && NotesOk(g, b.notes) && NotesOk(g, b.inner) && ',' !in b.duration
    && (forall p :: p in b.address ==> PieceOk(p)) && !Has(PiecesText(b.address), "#")
  }

  // ------------------------------------------------------------------ what it says

  /** The last note of a kind. */
  function LastOf(notes: seq<Note>, kind: Note -> bool): (n: Option<Note>)
    ensures n.Some? ==> kind(n.value) && n.value in notes
  {
    if notes == [] then None
    else if kind(notes[|notes| - 1]) then Some(notes[|notes| - 1])
    else LastOf(notes[..|notes| - 1], kind)
  }

  predicate IsVersion(n: Note) { n.VersionNote? }
  predicate IsTarget(n: Note) { n.TargetNote? }
  predicate IsSequence(n: Note) { n.SequenceNote? }
  predicate IsKey(n: Note) { n.KeyNote? }
  predicate IsSpan(n: Note) { n.SpanNote? }
  predicate IsDate(n: Note) { n.DateNote? }
  predicate IsDiscontinuity(n: Note) { n.DiscontinuityNote? }
  predicate IsEnd(n: Note) { n.EndNote? }

  /** White space around the type does not count, and other types are passed over. */
  predicate IsType(n: Note) { n.TypeNote? && (Trim(n.text) == "VOD" || Trim(n.text) == "EVENT") }

  /** A map without an address is passed over. */
  predicate IsMap(n: Note) { n.MapNote? && ValueIn(n.list, "URI").Some? }

  function NumberOf(g: Setting, n: Option<Note>, default: real): Num
    requires n.Some? ==> n.value.VersionNote? || n.value.TargetNote? || n.value.SequenceNote?
  {
    match n case None => Some(default) case Some(note) => g.num(note.text)
  }

  /** A definition; one of a variable that is not known where it comes from is passed over. */
  function Defining(g: Setting, vars: map<string, string>, list: seq<Attribute>): map<string, string>
  {
    match (ValueIn(list, "IMPORT"), ValueIn(list, "QUERYPARAM"), ValueIn(list, "NAME"), ValueIn(list, "VALUE"))
    case (Some(name), _, _, _) => if name in g.variables then vars[name := g.variables[name]] else vars
    case (None, Some(name), _, _) => if name in g.queryParams then vars[name := g.queryParams[name]] else vars
    case (None, None, Some(name), Some(value)) => vars[name := value]
    case _ => vars
  }

  /** The variables behind these notes. */
  function Vars(g: Setting, notes: seq<Note>): map<string, string>
  {
    if notes == [] then g.variables
    else
      var n := notes[|notes| - 1];
      var vars := Vars(g, notes[..|notes| - 1]);
      if n.DefineNote? then Defining(g, vars, n.list) else vars
  }

  /** A text with its variables replaced; one that is not known is an error, but without any variables the text stays. */
  function Expanded(ps: seq<Piece>, vars: map<string, string>): Option<string>
  {
    if vars == map[] then Some(PiecesText(ps)) else Replaced(ps, vars)
  }

  function Replaced(ps: seq<Piece>, vars: map<string, string>): Option<string>
  {
    if ps == [] then Some("")
    else
      match Replaced(ps[1..], vars)
      case None => None
      case Some(rest) =>
        match ps[0]
        case Plain(t) => Some(t + rest)
        case Ref(n) => if n in vars then Some(vars[n] + rest) else None
  }

  /** A key with a method there is. */
  predicate KeyOk(list: seq<Attribute>)
  {
    var m := ValueIn(list, "METHOD");
    m == Some("NONE") || m == Some("AES-128") || m == Some("SAMPLE-AES") || m == Some("SAMPLE-AES-CTR")
  }

  function KeyMeant(n: Option<Note>): Option<EncryptionKey>
    requires n.Some? ==> n.value.KeyNote?
  {
    match n
    case None => None
    case Some(note) =>
      Some(EncryptionKey(match ValueIn(note.list, "METHOD") case None => "" case Some(m) => m, ValueIn(note.list, "URI"),
                         ValueIn(note.list, "IV"), ValueIn(note.list, "KEYFORMAT"), ValueIn(note.list, "KEYFORMATVERSIONS")))
  }

  function MapMeant(g: Setting, n: Option<Note>): Option<HlsMap>
    requires n.Some? ==> IsMap(n.value)
  {
    match n
    case None => None
    case Some(note) =>
      Some(HlsMap(ValueIn(note.list, "URI").value,
                  match note.mapped
                  case None => None
                  case Some(s) => Some(ByteRange(g.num(s.length), match s.offset case None => Some(0.0) case Some(o) => g.num(o)))))
  }

  /** The bytes of a segment: an omitted offset goes on where the range of the segment before ended. */
  function SpanMeant(g: Setting, own: seq<Note>, before: Option<ByteRange>): Option<ByteRange>
  {
    match LastOf(own, IsSpan)
    case None => None
    case Some(note) =>
      Some(ByteRange(g.num(note.span.length),
                     match note.span.offset
                     case Some(o) => g.num(o)
                     case None => match before case None => Some(0.0) case Some(r) => Plus(r.offset, r.length)))
  }

  /** The date ranges, each with the variables there are where it stands; incomplete ones are passed over. */
  function RangesMeant(g: Setting, notes: seq<Note>): Option<seq<DateRange>>
  {
    if notes == [] then Some([])
    else
      var before, n := notes[..|notes| - 1], notes[|notes| - 1];
      match RangesMeant(g, before)
      case None => None
      case Some(ranges) =>
        if !n.RangeNote? || !Complete(WithoutProto(n.range.range)) then Some(ranges)
        else if ClientsKnown(WithoutProto(n.range.range), Vars(g, before))
        then Some(ranges + [ClientsSubstituted(WithoutProto(n.range.range), Vars(g, before))])
        else None
  }

  /** What stands outside of the segments, and what stands anywhere. */
  function Outer(blocks: seq<Block>): seq<Note>
  {
    if blocks == [] then [] else Outer(blocks[..|blocks| - 1]) + blocks[|blocks| - 1].notes
  }

  function Anywhere(blocks: seq<Block>): seq<Note>
  {
    if blocks == [] then []
    else Anywhere(blocks[..|blocks| - 1]) + (blocks[|blocks| - 1].notes + blocks[|blocks| - 1].inner)
  }

  /** The range of the last segment. */
  function LastSpan(g: Setting, blocks: seq<Block>): Option<ByteRange>
  {
    if blocks == [] then None
    else
      var b := blocks[|blocks| - 1];
      SpanMeant(g, b.notes + b.inner, LastSpan(g, blocks[..|blocks| - 1]))
  }

  /** The last of the segments, at this address. */
  function SegmentMeant(g: Setting, blocks: seq<Block>, uri: string): Segment
    requires blocks != []
  {
    var b := blocks[|blocks| - 1];
    var own := b.notes + b.inner;
    Segment(uri, g.num(b.duration), Plus(NumberOf(g, LastOf(Outer(blocks), IsSequence), 0.0), Some((|blocks| - 1) as real)),
            KeyMeant(LastOf(Outer(blocks), IsKey)), MapMeant(g, LastOf(Anywhere(blocks), IsMap)), LastSpan(g, blocks),
            LastOf(own, IsDiscontinuity).Some?,
            match LastOf(own, IsDate) case None => None case Some(d) => if d.text == "" then None else Some(d.text))
  }

  /** All segments, unless an address holds an unknown variable. */
  function SegmentsMeant(g: Setting, blocks: seq<Block>): Option<seq<Segment>>
  {
    if blocks == [] then Some([])
    else
      match (SegmentsMeant(g, blocks[..|blocks| - 1]), Expanded(blocks[|blocks| - 1].address, Vars(g, Outer(blocks))))
      case (Some(before), Some(uri)) => Some(before + [SegmentMeant(g, blocks, uri)])
      case _ => None
  }

  predicate KeysOk(notes: seq<Note>)
  {
    forall n :: n in notes && n.KeyNote? ==> KeyOk(n.list)
  }

  /** The playlist of these segments and the notes behind them. */
  function Meant(g: Setting, blocks: seq<Block>, rest: seq<Note>): Option<MediaPlaylist>
  {
    var notes := Outer(blocks) + rest;
    match (SegmentsMeant(g, blocks), RangesMeant(g, notes))
    case (Some(segments), Some(ranges)) => if KeysOk(notes) then Some(PlaylistOf(g, notes, segments, ranges)) else None
    case _ => None
  }

  function PlaylistOf(g: Setting, notes: seq<Note>, segments: seq<Segment>, ranges: seq<DateRange>): MediaPlaylist
  {
    MediaPlaylist(NumberOf(g, LastOf(notes, IsVersion), 1.0), NumberOf(g, LastOf(notes, IsTarget), 0.0),
                  NumberOf(g, LastOf(notes, IsSequence), 0.0),
                  match LastOf(notes, IsType) case None => "LIVE" case Some(n) => Trim(n.text),
                  LastOf(notes, IsEnd).Some?, segments, ranges)
  }

  // ------------------------------------------------------------------ lines are told apart

  /** The eighth and ninth characters tell the tags apart, but for EXTINF, which the fifth does. */
  lemma MoreTags()
    ensures EXT_X_TARGETDURATION[7] == 'T' && EXT_X_TARGETDURATION[8] == 'A' && EXT_X_ENDLIST[7] == 'E' && EXT_X_ENDLIST[8] == 'N'
    ensures EXT_X_VERSION[7] == 'V' && EXT_X_VERSION[8] == 'E' && EXT_X_KEY[7] == 'K' && EXT_X_KEY[8] == 'E'
    ensures EXT_X_BYTERANGE[7] == 'B' && EXT_X_BYTERANGE[8] == 'Y' && EXT_X_DISCONTINUITY[7] == 'D' && EXT_X_DISCONTINUITY[8] == 'I'
    ensures EXT_X_DEFINE[7] == 'D' && EXT_X_DEFINE[8] == 'E' && EXT_X_DATERANGE[7] == 'D' && EXT_X_DATERANGE[8] == 'A'
    ensures |EXT_X_DEFINE| > 8 && |EXT_X_DATERANGE| > 8
  {
  }

  /** A line with one of the tags carries that tag and no other. */
  lemma TagOfLine(line: string)
    requires |line| > 8 && line[4] == '-'
    ensures Has(line, EXT_X_TARGETDURATION) ==> OuterTag(line) == TargetDuration && InnerTag(line) == NoTag
    ensures Has(line, EXT_X_MEDIA_SEQUENCE) ==> OuterTag(line) == MediaSequence && InnerTag(line) == NoTag
    ensures line == EXT_X_ENDLIST ==> OuterTag(line) == EndList && InnerTag(line) == NoTag
    ensures Has(line, EXT_X_PLAYLIST_TYPE) ==> OuterTag(line) == PlaylistType && InnerTag(line) == NoTag
    ensures Has(line, EXT_X_VERSION) ==> OuterTag(line) == Version && InnerTag(line) == NoTag
    ensures Has(line, EXT_X_KEY) ==> OuterTag(line) == Key && InnerTag(line) == NoTag
    ensures Has(line, EXT_X_MAP) ==> OuterTag(line) == Map && InnerTag(line) == Map
    ensures Has(line, EXT_X_BYTERANGE) ==> OuterTag(line) == Range && InnerTag(line) == Range
    ensures line == EXT_X_DISCONTINUITY ==> OuterTag(line) == Discontinuity && InnerTag(line) == Discontinuity
    ensures Has(line, EXT_X_PROGRAM_DATE_TIME) ==> OuterTag(line) == DateTime && InnerTag(line) == DateTime
    ensures Has(line, EXT_X_DEFINE) ==> OuterTag(line) == Define && InnerTag(line) == NoTag
    ensures Has(line, EXT_X_DATERANGE) ==> OuterTag(line) == DateRangeTag && InnerTag(line) == NoTag
  {
    hide EXTINF, EXT_X_TARGETDURATION, EXT_X_MEDIA_SEQUENCE, EXT_X_ENDLIST, EXT_X_PLAYLIST_TYPE, EXT_X_VERSION, EXT_X_KEY, EXT_X_MAP,
         EXT_X_BYTERANGE, EXT_X_DISCONTINUITY, EXT_X_PROGRAM_DATE_TIME, EXT_X_DEFINE, EXT_X_DATERANGE;
    Tags();
    MoreTags();
  }

  /** The tag a note is written with. */
  function TagOf(n: Note): Tag
  {
    match n
    case VersionNote(_) => Version
    case TargetNote(_) => TargetDuration
    case SequenceNote(_) => MediaSequence
    case TypeNote(_) => PlaylistType
    case EndNote => EndList
    case KeyNote(_) => Key
    case MapNote(_, _) => Map
    case SpanNote(_) => Range
    case DiscontinuityNote => Discontinuity
    case DateNote(_) => DateTime
    case DefineNote(_) => Define
    case RangeNote(_, _) => DateRangeTag
    case Comment(_) => NoTag
  }

  predicate MeansInside(n: Note)
  {
    n.MapNote? || n.SpanNote? || n.DiscontinuityNote? || n.DateNote?
  }

  function TextOf(n: Note): string
  {
    match n
    case VersionNote(t) => t
    case TargetNote(t) => t
    case SequenceNote(t) => t
    case TypeNote(t) => t
    case KeyNote(list) => ListWritten(list)
    case MapNote(list, _) => ListWritten(list)
    case SpanNote(s) => SpanText(s)
    case DateNote(t) => t
    case DefineNote(list) => ListWritten(list)
    case RangeNote(list, _) => ListWritten(list)
    case _ => ""
  }

  /** The tag as a text. */
  function TagText(n: Note): string
  {
    match n
    case VersionNote(_) => EXT_X_VERSION
    case TargetNote(_) => EXT_X_TARGETDURATION
    case SequenceNote(_) => EXT_X_MEDIA_SEQUENCE
    case TypeNote(_) => EXT_X_PLAYLIST_TYPE
    case EndNote => EXT_X_ENDLIST
    case KeyNote(_) => EXT_X_KEY
    case MapNote(_, _) => EXT_X_MAP
    case SpanNote(_) => EXT_X_BYTERANGE
    case DiscontinuityNote => EXT_X_DISCONTINUITY
    case DateNote(_) => EXT_X_PROGRAM_DATE_TIME
    case DefineNote(_) => EXT_X_DEFINE
    case RangeNote(_, _) => EXT_X_DATERANGE
    case Comment(line) => line
  }

  lemma LineParts(n: Note)
    ensures LineOf(n) == TagText(n) + TextOf(n) && Behind(LineOf(n), TagText(n)) == TextOf(n) && Has(LineOf(n), TagText(n))
  {
    hide ListWritten, SpanText;
    var line := TagText(n) + TextOf(n);
    assert line[|TagText(n)|..] == TextOf(n);
    if n.EndNote? || n.DiscontinuityNote? || n.Comment? { assert TagText(n) + "" == TagText(n); }
  }

  lemma TagSigns(n: Note)
    requires !n.Comment?
    ensures |TagText(n)| > 8 && TagText(n)[4] == '-' && TagText(n)[0] == '#'
  {
  }

  lemma NoteTag(g: Setting, n: Note)
    requires NoteOk(g, n)
    ensures OuterTag(LineOf(n)) == TagOf(n) && InnerTag(LineOf(n)) == (if MeansInside(n) then TagOf(n) else NoTag)
    ensures Has(LineOf(n), "#") && LineOf(n) != ""
  {
    LineParts(n);
    if n.Comment? {
      CommentTag(n.line);
    } else {
      TagSigns(n);
      TagOfLine(LineOf(n));
      hide OuterTag, InnerTag, EXT_X_TARGETDURATION, EXT_X_MEDIA_SEQUENCE, EXT_X_ENDLIST, EXT_X_PLAYLIST_TYPE, EXT_X_VERSION, EXT_X_KEY,
           EXT_X_MAP, EXT_X_BYTERANGE, EXT_X_DISCONTINUITY, EXT_X_PROGRAM_DATE_TIME, EXT_X_DEFINE, EXT_X_DATERANGE, NoteOk, ListWritten,
           LineOf;
      var line := LineOf(n);
      assert line[0] == '#';
      assert line[..1] == "#";
      if n.EndNote? || n.DiscontinuityNote? { assert TagText(n) + "" == TagText(n); }
    }
  }

  lemma CommentTag(line: string)
    requires line != "#EXT-X-ENDLIST" && line != "#EXT-X-DISCONTINUITY" && forall t :: t in TAGS ==> !Has(line, t)
    ensures OuterTag(line) == NoTag && InnerTag(line) == NoTag
  {
    assert EXTINF in TAGS && EXT_X_TARGETDURATION in TAGS && EXT_X_MEDIA_SEQUENCE in TAGS && EXT_X_PLAYLIST_TYPE in TAGS
           && EXT_X_VERSION in TAGS && EXT_X_KEY in TAGS && EXT_X_MAP in TAGS && EXT_X_BYTERANGE in TAGS
           && EXT_X_PROGRAM_DATE_TIME in TAGS && EXT_X_DEFINE in TAGS && EXT_X_DATERANGE in TAGS;
    hide TAGS;
  }

  // ------------------------------------------------------------------ what the texts stand for

  lemma {:induction false} LastValue(list: seq<Attribute>, key: string)
    requires key != PROTO
    ensures Given(MapOf(list) - {PROTO}, key) == ValueIn(list, key)
    decreases |list|
  {
    hide PROTO;
    if list != [] { LastValue(list[..|list| - 1], key); }
  }

  lemma ListRead(list: seq<Attribute>, key: string)
    requires AllWritable(list) && key != PROTO
    ensures Given(Attributes(ListWritten(list), 0, map[]), key) == ValueIn(list, key)
  {
    hide *;
    AttributesBack(list);
    LastValue(list, key);
  }

  function Pending(g: Setting, s: Span): PartialByteRange
  {
    PartialByteRange(g.num(s.length), match s.offset case None => None case Some(o) => Some(g.num(o)))
  }

  /** `n@o` is a length and an offset, `n` a length. */
  lemma SpanRead(g: Setting, s: Span)
    requires SpanOk(s)
    ensures ParsePartialByteRange(g, SpanText(s)) == Pending(g, s)
  {
    hide RunEnd;
    var t := SpanText(s);
    assert t[0..] == t;
    match s.offset
    case None =>
      assert t == s.length + "";
      RunOver(t, 0, s.length, "", NotAt) by { assert forall c :: c in s.length ==> NotAt(c); }
    case Some(o) =>
      RunOver(t, 0, s.length, "@" + o, NotAt) by { assert forall c :: c in s.length ==> NotAt(c); }
      Here(t, 0, s.length, "@" + o);
      Here(t, |s.length|, "@", o);
      assert o == o + "";
      RunOver(t, |s.length| + 1, o, "", NotAt) by { assert forall c :: c in o ==> NotAt(c); }
  }

  lemma {:induction false} PiecesRead(ps: seq<Piece>, vars: map<string, string>)
    requires forall p :: p in ps ==> PieceOk(p)
    ensures Substitute(PiecesText(ps), vars) == Replaced(ps, vars)
  {
    hide Substitute, PieceOk;
    if ps == [] {
      NothingReplaced(vars);
    } else {
      assert ps[0] in ps && forall p :: p in ps[1..] ==> p in ps;
      PiecesRead(ps[1..], vars);
      match ps[0]
      case Plain(t) => PlainRead(t, PiecesText(ps[1..]), vars);
      case Ref(n) =>
        assert PiecesText(ps) == "{$" + (n + ("}" + PiecesText(ps[1..])));
        RefRead(n, PiecesText(ps[1..]), vars);
    }
  }

  lemma NothingReplaced(vars: map<string, string>)
    ensures Substitute("", vars) == Some("")
  {
  }

  lemma {:induction false} PlainRead(t: string, rest: string, vars: map<string, string>)
    requires PieceOk(Plain(t))
    ensures Substitute(t + rest, vars) == match Substitute(rest, vars) case None => None case Some(r) => Some(t + r)
  {
    hide Substitute, PieceOk;
    var r := Substitute(rest, vars);
    if t == "" {
      assert t + rest == rest;
      if r.Some? { assert "" + r.value == r.value; }
    } else {
      PlainStart(t, rest);
      PlainRest(t);
      PlainRead(t[1..], rest, vars);
      NoReference(t + rest, vars);
      if r.Some? { assert [t[0]] + (t[1..] + r.value) == t + r.value; }
    }
  }

  lemma PlainStart(t: string, rest: string)
    requires PieceOk(Plain(t)) && t != ""
    ensures var s := t + rest; s != "" && s[0] == t[0] && s[1..] == t[1..] + rest && !StartsAt(s, 0, "{$")
  {
    var s := t + rest;
    if |s| >= 2 { assert s[0..2][0] == s[0] && s[0..2][1] == s[1]; }
  }

  lemma PlainRest(t: string)
    requires PieceOk(Plain(t)) && t != ""
    ensures PieceOk(Plain(t[1..]))
  {
    assert forall i :: 0 <= i < |t| - 1 ==> t[1..][i] == t[i + 1];
  }

  lemma NoReference(s: string, vars: map<string, string>)
    requires s != "" && !StartsAt(s, 0, "{$")
    ensures Substitute(s, vars) == match Substitute(s[1..], vars) case None => None case Some(t) => Some([s[0]] + t)
  {
  }

  lemma RefRead(n: string, rest: string, vars: map<string, string>)
    requires PieceOk(Ref(n))
    ensures Substitute("{$" + (n + ("}" + rest)), vars)
         == if n !in vars then None else match Substitute(rest, vars) case None => None case Some(r) => Some(vars[n] + r)
  {
    var s := "{$" + (n + ("}" + rest));
    RefParts(n, rest);
    hide RunEnd, StartsAt, CharAt, PieceOk;
  }

  lemma RefParts(n: string, rest: string)
    requires PieceOk(Ref(n))
    ensures var s := "{$" + (n + ("}" + rest));
            var k := 2 + |n|;
            && s != "" && 2 < k < |s| && StartsAt(s, 0, "{$") && RunEnd(s, 2, NotBrace) == k && CharAt(s, k) == Some('}')
            && s[2..k] == n && s[k + 1..] == rest
  {
    hide RunEnd;
    var s := "{$" + (n + ("}" + rest));
    assert s[0..] == s;
    Here(s, 0, "{$", n + ("}" + rest));
    RunOver(s, 2, n, "}" + rest, NotBrace);
    Here(s, 2, n, "}" + rest);
    Here(s, 2 + |n|, "}", rest);
    assert s[2 + |n|] == "}"[0];
  }

  /** An address as it is written, with the variables there are. */
  lemma AddressRead(ps: seq<Piece>, vars: map<string, string>)
    requires forall p :: p in ps ==> PieceOk(p)
    ensures SubstituteVars(PiecesText(ps), vars) == Expanded(ps, vars)
  {
    hide Substitute, PieceOk, PiecesText, Replaced;
    PiecesRead(ps, vars);
  }

  // ------------------------------------------------------------------ lines do what their notes say

  /** What a note does, unless it is an error or a date range. */
  function Noted(g: Setting, st: State, n: Note): State
  {
    match n
    case VersionNote(t) => st.(version := g.num(t))
    case TargetNote(t) => st.(targetDuration := g.num(t))
    case SequenceNote(t) => st.(mediaSequence := g.num(t))
    case TypeNote(t) => if IsType(n) then st.(playlistType := Trim(t)) else st
    case EndNote => st.(ended := true)
    case KeyNote(_) => st.(key := KeyMeant(Some(n)))
    case MapNote(_, _) => if IsMap(n) then st.(map_ := MapMeant(g, Some(n))) else st
    case SpanNote(s) => st.(byteRange := Some(Pending(g, s)))
    case DiscontinuityNote => st.(discontinuity := true)
    case DateNote(t) => st.(dateTime := t)
    case DefineNote(list) => st.(defines := Defining(g, st.defines, list))
    case _ => st
  }

  lemma MapRead(g: Setting, st: State, n: Note)
    requires NoteOk(g, n) && n.MapNote?
    ensures WithMap(g, st, Attributes(ListWritten(n.list), 0, map[])) == Noted(g, st, n)
  {
    hide Attributes, ListWritten, ParsePartialByteRange, AllWritable, PROTO, SpanText, ValueIn;
    NotProto();
    ListRead(n.list, "URI");
    ListRead(n.list, "BYTERANGE");
    if n.mapped.Some? { SpanRead(g, n.mapped.value); }
  }

  lemma NotProto()
    ensures "URI" != PROTO && "BYTERANGE" != PROTO && "METHOD" != PROTO && "IV" != PROTO && "KEYFORMAT" != PROTO
    ensures "KEYFORMATVERSIONS" != PROTO && "IMPORT" != PROTO && "QUERYPARAM" != PROTO && "NAME" != PROTO && "VALUE" != PROTO
  {
    assert PROTO[0] == '_';
    assert "URI"[0] != '_' && "BYTERANGE"[0] != '_' && "METHOD"[0] != '_' && "IV"[0] != '_' && "KEYFORMAT"[0] != '_'
           && "KEYFORMATVERSIONS"[0] != '_' && "IMPORT"[0] != '_' && "QUERYPARAM"[0] != '_' && "NAME"[0] != '_' && "VALUE"[0] != '_';
  }

  lemma GivenIs(attrs: map<string, string>, key: string, v: Option<string>)
    requires Given(attrs, key) == v
    ensures v.Some? ==> key in attrs && attrs[key] == v.value
    ensures v.None? ==> key !in attrs || attrs[key] == ""
  {
  }

  lemma KeyRead(g: Setting, st: State, n: Note)
    requires NoteOk(g, n) && n.KeyNote?
    ensures WithKey(st, Attributes(ListWritten(n.list), 0, map[])) == if KeyOk(n.list) then Some(Noted(g, st, n)) else None
  {
    hide Attributes, ListWritten, AllWritable, PROTO, ValueIn;
    NotProto();
    ListRead(n.list, "METHOD");
    ListRead(n.list, "URI");
    ListRead(n.list, "IV");
    ListRead(n.list, "KEYFORMAT");
    ListRead(n.list, "KEYFORMATVERSIONS");
    GivenIs(Attributes(ListWritten(n.list), 0, map[]), "METHOD", ValueIn(n.list, "METHOD"));
    assert !IsMethod("");
  }

  lemma DefineRead(g: Setting, st: State, n: Note)
    requires NoteOk(g, n) && n.DefineNote?
    ensures WithDefine(g, st, Attributes(ListWritten(n.list), 0, map[])) == Noted(g, st, n)
  {
    hide Attributes, ListWritten, AllWritable, PROTO, ValueIn;
    NotProto();
    ListRead(n.list, "IMPORT");
    ListRead(n.list, "QUERYPARAM");
    ListRead(n.list, "NAME");
    ListRead(n.list, "VALUE");
    GivenIs(Attributes(ListWritten(n.list), 0, map[]), "NAME", ValueIn(n.list, "NAME"));
    GivenIs(Attributes(ListWritten(n.list), 0, map[]), "VALUE", ValueIn(n.list, "VALUE"));
  }

  /** A date range note, with the variables there are. */
  function Ranged(st: State, r: DateRange): Option<State>
  {
    if !Complete(r) then Some(st)
    else if ClientsKnown(r, st.defines) then Some(st.(dateRanges := st.dateRanges + [ClientsSubstituted(r, st.defines)]))
    else None
  }

  lemma RangeRead(g: Setting, st: State, n: Note)
    requires NoteOk(g, n) && n.RangeNote?
    ensures WithDateRange(g, st, Attributes(ListWritten(n.list), 0, map[])) == Ranged(st, WithoutProto(n.range.range))
  {
    hide Attributes, ListWritten, AllWritable, PROTO, RangeOf, Complete, ClientsKnown, ClientsSubstituted, Says, MapOf, Expressible, WithoutProto;
    DateRangeBack(g, n.range, n.list, st.defines);
  }

  /** A line outside of a segment does what its note says. */
  lemma OutsideIs(g: Setting, st: State, n: Note)
    requires NoteOk(g, n)
    ensures Outside(g, st, LineOf(n))
         == match n
            case KeyNote(list) => if KeyOk(list) then Some(Noted(g, st, n)) else None
            case RangeNote(_, r) => Ranged(st, WithoutProto(r.range))
            case _ => Some(Noted(g, st, n))
  {
    hide OuterTag, InnerTag, Attributes, ListWritten, AllWritable, ParsePartialByteRange, WithMap, WithKey, WithDefine, WithDateRange, Behind,
         LineOf, SpanText, Defining, KeyMeant, MapMeant, Ranged, KeyOk, Trim, ValueIn, Says, Expressible, WithoutProto, Has, NoteOk, IsType,
         IsMap, EXT_X_TARGETDURATION, EXT_X_MEDIA_SEQUENCE, EXT_X_ENDLIST, EXT_X_PLAYLIST_TYPE, EXT_X_VERSION, EXT_X_KEY, EXT_X_MAP,
         EXT_X_BYTERANGE, EXT_X_DISCONTINUITY, EXT_X_PROGRAM_DATE_TIME, EXT_X_DEFINE, EXT_X_DATERANGE;
    NoteTag(g, n);
    LineParts(n);
    match n
    case MapNote(_, _) => MapRead(g, st, n);
    case KeyNote(_) => KeyRead(g, st, n);
    case DefineNote(_) => DefineRead(g, st, n);
    case RangeNote(_, _) => RangeRead(g, st, n);
    case SpanNote(s) => SpanOkOf(g, n); SpanRead(g, s);
    case TypeNote(t) => TypeRead(st, t);
    case _ =>
  }

  lemma SpanOkOf(g: Setting, n: Note)
    requires NoteOk(g, n) && n.SpanNote?
    ensures SpanOk(n.span)
  {
  }

  lemma TypeRead(st: State, t: string)
    ensures IsType(TypeNote(t)) <==> Trim(t) == "VOD" || Trim(t) == "EVENT"
  {
  }

  /** And so does a line between EXTINF and the address, if it means anything there. */
  lemma InsideIs(g: Setting, st: State, n: Note)
    requires NoteOk(g, n)
    ensures Inside(g, st, LineOf(n)) == if MeansInside(n) then Noted(g, st, n) else st
  {
    NoteTag(g, n);
    LineParts(n);
    if n.MapNote? { MapRead(g, st, n); }
    if n.SpanNote? { SpanRead(g, n.span); }
    hide OuterTag, InnerTag, Attributes, ListWritten, AllWritable, ParsePartialByteRange, WithMap, Behind,
         LineOf, SpanText, Defining, KeyMeant, MapMeant, KeyOk, Trim, ValueIn, Says, Expressible, Has;
  }

  // ------------------------------------------------------------------ the machine notes what the notes mean

  /** What the last notes of each kind say is what the machine knows: `own` are the notes of the segment to come. */
  ghost predicate Knows(g: Setting, st: State, outer: seq<Note>, anywhere: seq<Note>, own: seq<Note>)
  {
    && KeysOk(outer) && RangesMeant(g, outer) == Some(st.dateRanges) && st.defines == Vars(g, outer)
    && st.version == NumberOf(g, LastOf(outer, IsVersion), 1.0) && st.targetDuration == NumberOf(g, LastOf(outer, IsTarget), 0.0)
    && st.mediaSequence == NumberOf(g, LastOf(outer, IsSequence), 0.0)
    && st.playlistType == (match LastOf(outer, IsType) case None => "LIVE" case Some(n) => Trim(n.text))
    && st.ended == LastOf(outer, IsEnd).Some?
    && st.key == KeyMeant(LastOf(outer, IsKey)) && st.map_ == MapMeant(g, LastOf(anywhere, IsMap))
    && Waits(g, st, own)
  }

  /** What is pending for the segment to come. */
  ghost predicate Waits(g: Setting, st: State, own: seq<Note>)
  {
    && st.byteRange == (match LastOf(own, IsSpan) case None => None case Some(n) => Some(Pending(g, n.span)))
    && st.discontinuity == LastOf(own, IsDiscontinuity).Some?
    && st.dateTime == (match LastOf(own, IsDate) case None => "" case Some(n) => n.text)
  }

  lemma LastMore(notes: seq<Note>, n: Note, kind: Note -> bool)
    ensures LastOf(notes + [n], kind) == if kind(n) then Some(n) else LastOf(notes, kind)
  {
    assert (notes + [n])[..|notes|] == notes;
  }

  lemma RangesMore(g: Setting, notes: seq<Note>, n: Note)
    ensures RangesMeant(g, notes + [n])
         == match RangesMeant(g, notes)
            case None => None
            case Some(ranges) =>
              if !n.RangeNote? || !Complete(WithoutProto(n.range.range)) then Some(ranges)
              else if ClientsKnown(WithoutProto(n.range.range), Vars(g, notes))
              then Some(ranges + [ClientsSubstituted(WithoutProto(n.range.range), Vars(g, notes))])
              else None
    ensures Vars(g, notes + [n]) == if n.DefineNote? then Defining(g, Vars(g, notes), n.list) else Vars(g, notes)
    ensures KeysOk(notes + [n]) <==> KeysOk(notes) && (n.KeyNote? ==> KeyOk(n.list))
  {
    hide Defining, ClientsKnown, ClientsSubstituted, Complete, KeyOk, WithoutProto;
    var more := notes + [n];
    assert more[..|more| - 1] == notes && more[|more| - 1] == n;
    assert n in more && forall x :: x in more <==> x in notes || x == n;
  }

  lemma AllMore(notes: seq<Note>, n: Note)
    ensures forall kind: Note -> bool :: LastOf(notes + [n], kind) == if kind(n) then Some(n) else LastOf(notes, kind)
  {
    assert (notes + [n])[..|notes|] == notes;
  }

  /** One more note outside of a segment. */
  lemma KnowsMore(g: Setting, st: State, n: Note, outer: seq<Note>, anywhere: seq<Note>, own: seq<Note>)
    requires Knows(g, st, outer, anywhere, own) && (n.KeyNote? ==> KeyOk(n.list)) && !n.RangeNote?
    ensures Knows(g, Noted(g, st, n), outer + [n], anywhere + [n], own + [n])
  {
    hide Defining, KeyMeant, MapMeant, LastOf, RangesMeant, Vars, KeysOk, KeyOk, Trim, ValueIn, Pending, Waits;
    RangesMore(g, outer, n);
    HeadMore(outer, n);
    LastMore(anywhere, n, IsMap);
    WaitsMore(g, st, n, own);
  }

  lemma HeadMore(notes: seq<Note>, n: Note)
    ensures LastOf(notes + [n], IsVersion) == if n.VersionNote? then Some(n) else LastOf(notes, IsVersion)
    ensures LastOf(notes + [n], IsTarget) == if n.TargetNote? then Some(n) else LastOf(notes, IsTarget)
    ensures LastOf(notes + [n], IsSequence) == if n.SequenceNote? then Some(n) else LastOf(notes, IsSequence)
    ensures LastOf(notes + [n], IsType) == if IsType(n) then Some(n) else LastOf(notes, IsType)
    ensures LastOf(notes + [n], IsEnd) == if n.EndNote? then Some(n) else LastOf(notes, IsEnd)
    ensures LastOf(notes + [n], IsKey) == if n.KeyNote? then Some(n) else LastOf(notes, IsKey)
  {
    hide Trim;
    AllMore(notes, n);
  }

  lemma WaitsMore(g: Setting, st: State, n: Note, own: seq<Note>)
    requires Waits(g, st, own)
    ensures Waits(g, Noted(g, st, n), own + [n])
    ensures !MeansInside(n) ==> Waits(g, st, own + [n])
  {
    hide Defining, KeyMeant, MapMeant, LastOf, Trim, Pending;
    LastMore(own, n, IsSpan);
    LastMore(own, n, IsDate);
    LastMore(own, n, IsDiscontinuity);
  }

  lemma RangeMore(g: Setting, st: State, n: Note, outer: seq<Note>, anywhere: seq<Note>, own: seq<Note>)
    requires Knows(g, st, outer, anywhere, own) && n.RangeNote?
    ensures match Ranged(st, WithoutProto(n.range.range))
            case None => RangesMeant(g, outer + [n]).None?
            case Some(t) => Knows(g, t, outer + [n], anywhere + [n], own + [n]) && t.segments == st.segments && t.previousEnd == st.previousEnd
  {
    hide Defining, KeyMeant, MapMeant, LastOf, RangesMeant, Vars, KeysOk, KeyOk, Trim, ValueIn, Pending, ClientsKnown, ClientsSubstituted,
         Complete, WithoutProto, Waits;
    RangesMore(g, outer, n);
    HeadMore(outer, n);
    LastMore(anywhere, n, IsMap);
    WaitsMore(g, st, n, own);
    RangedWaits(g, st, WithoutProto(n.range.range), own + [n]);
  }

  lemma RangedWaits(g: Setting, st: State, r: DateRange, own: seq<Note>)
    requires Waits(g, st, own)
    ensures Ranged(st, r).Some? ==> Waits(g, Ranged(st, r).value, own)
  {
    hide ClientsKnown, ClientsSubstituted, Complete;
  }

  lemma NotedKeeps(g: Setting, st: State, n: Note)
    ensures Noted(g, st, n).segments == st.segments && Noted(g, st, n).previousEnd == st.previousEnd
  {
  }

  lemma OuterStep(g: Setting, st: State, n: Note, outer: seq<Note>, anywhere: seq<Note>, own: seq<Note>)
    requires Knows(g, st, outer, anywhere, own) && NoteOk(g, n)
    ensures match Step(g, Machine(st, Mode.Outer), LineOf(n))
            case None => !KeysOk(outer + [n]) || RangesMeant(g, outer + [n]).None?
            case Some(m) =>
              && m.mode == Mode.Outer && Knows(g, m.state, outer + [n], anywhere + [n], own + [n])
              && m.state.segments == st.segments && m.state.previousEnd == st.previousEnd
  {
    hide Knows, NoteOk, Outside, OuterTag, LineOf, Noted, KeysOk, KeyOk, RangesMeant, Ranged, WithoutProto;
    OutsideIs(g, st, n);
    NoteTag(g, n);
    NotedKeeps(g, st, n);
    RangesMore(g, outer, n);
    if n.RangeNote? { RangeMore(g, st, n, outer, anywhere, own); }
    else if n.KeyNote? ==> KeyOk(n.list) { KnowsMore(g, st, n, outer, anywhere, own); }
  }

  /** An error stays one. */
  lemma {:induction false} ErrorsStay(g: Setting, a: seq<Note>, b: seq<Note>)
    ensures RangesMeant(g, a).None? ==> RangesMeant(g, a + b).None?
    ensures !KeysOk(a) ==> !KeysOk(a + b)
    decreases |b|
  {
    hide KeyOk;
    if b == [] {
      assert a + b == a;
    } else {
      var n := |b| - 1;
      ErrorsStay(g, a, b[..n]);
      RangesMore(g, a + b[..n], b[n]);
      assert a + b == (a + b[..n]) + [b[n]];
    }
  }

  lemma {:induction false} OuterRun(g: Setting, st: State, notes: seq<Note>, outer: seq<Note>, anywhere: seq<Note>, own: seq<Note>)
    requires Knows(g, st, outer, anywhere, own) && NotesOk(g, notes)
    ensures match Fold(g, Machine(st, Mode.Outer), NoteLines(notes))
            case None => !KeysOk(outer + notes) || RangesMeant(g, outer + notes).None?
            case Some(m) =>
              && m.mode == Mode.Outer && Knows(g, m.state, outer + notes, anywhere + notes, own + notes)
              && m.state.segments == st.segments && m.state.previousEnd == st.previousEnd
    decreases |notes|
  {
    hide Knows, NoteOk, Step, LineOf, KeysOk, RangesMeant;
    if notes == [] {
      assert outer + notes == outer && anywhere + notes == anywhere && own + notes == own;
    } else {
      var n, rest := notes[0], notes[1..];
      assert n in notes && forall x :: x in rest ==> x in notes;
      OuterStep(g, st, n, outer, anywhere, own);
      FirstOf(outer, notes);
      FirstOf(anywhere, notes);
      FirstOf(own, notes);
      var m := Step(g, Machine(st, Mode.Outer), LineOf(n));
      FoldStep(g, Machine(st, Mode.Outer), LineOf(n), NoteLines(rest));
      if m.None? {
        ErrorsStay(g, outer + [n], rest);
      } else {
        OuterRun(g, m.value.state, rest, outer + [n], anywhere + [n], own + [n]);
      }
    }
  }

  lemma FirstOf(a: seq<Note>, notes: seq<Note>)
    requires notes != []
    ensures (a + [notes[0]]) + notes[1..] == a + notes
  {
    assert [notes[0]] + notes[1..] == notes;
  }

  /** One more note between EXTINF and the address. */
  lemma KnowsInside(g: Setting, st: State, n: Note, outer: seq<Note>, anywhere: seq<Note>, own: seq<Note>)
    requires Knows(g, st, outer, anywhere, own)
    ensures Knows(g, if MeansInside(n) then Noted(g, st, n) else st, outer, anywhere + [n], own + [n])
  {
    hide Defining, KeyMeant, MapMeant, LastOf, RangesMeant, Vars, KeysOk, KeyOk, Trim, ValueIn, Pending, Waits;
    LastMore(anywhere, n, IsMap);
    WaitsMore(g, st, n, own);
  }

  lemma {:induction false} InnerRun(g: Setting, st: State, duration: Num, notes: seq<Note>, outer: seq<Note>, anywhere: seq<Note>, own: seq<Note>)
    requires Knows(g, st, outer, anywhere, own) && NotesOk(g, notes)
    ensures var m := Fold(g, Machine(st, Waiting(duration)), NoteLines(notes));
            && m.Some? && m.value.mode == Waiting(duration) && Knows(g, m.value.state, outer, anywhere + notes, own + notes)
            && m.value.state.segments == st.segments && m.value.state.previousEnd == st.previousEnd
    decreases |notes|
  {
    hide Knows, NoteOk, Inside, LineOf, Noted, MeansInside, Has;
    if notes == [] {
      assert anywhere + notes == anywhere && own + notes == own;
    } else {
      var n, rest := notes[0], notes[1..];
      assert n in notes && forall x :: x in rest ==> x in notes;
      InsideIs(g, st, n);
      NoteTag(g, n);
      NotedKeeps(g, st, n);
      KnowsInside(g, st, n, outer, anywhere, own);
      FirstOf(anywhere, notes);
      FirstOf(own, notes);
      WaitingStep(g, st, duration, LineOf(n));
      FoldStep(g, Machine(st, Waiting(duration)), LineOf(n), NoteLines(rest));
      InnerRun(g, Inside(g, st, LineOf(n)), duration, rest, outer, anywhere + [n], own + [n]);
    }
  }

  // ------------------------------------------------------------------ segments

  lemma ExtinfRead(g: Setting, st: State, b: Block)
    requires ',' !in b.duration
    ensures Step(g, Machine(st, Mode.Outer), ExtinfLine(b)) == Some(Machine(st, Waiting(g.num(b.duration))))
  {
    hide RunEnd, Inside;
    var line, tail := ExtinfLine(b), match b.title case None => "" case Some(t) => "," + t;
    var d := b.duration + tail;
    assert line == EXTINF + d;
    assert line[|EXTINF|..] == d && d[0..] == d;
    ExtinfIsNothingInside(g, st, line);
    RunOver(d, 0, b.duration, tail, NotCommaChar) by { assert forall c :: c in b.duration ==> NotCommaChar(c); }
    hide OuterTag, EXTINF;
  }

  lemma AddressStep(g: Setting, st: State, duration: Num, b: Block)
    requires BlockOk(g, b)
    ensures Step(g, Machine(st, Waiting(duration)), PiecesText(b.address))
         == match Expanded(b.address, st.defines) case None => None case Some(uri) => Some(Machine(Push(st, duration, uri), Mode.Outer))
  {
    hide Push, SubstituteVars, Inside, PiecesText, Expanded, PieceOk;
    AddressRead(b.address, st.defines);
  }

  /** Everything is noted up to the end of these segments. */
  ghost predicate Told(g: Setting, blocks: seq<Block>, st: State)
  {
    && Knows(g, st, Outer(blocks), Anywhere(blocks), [])
    && SegmentsMeant(g, blocks) == Some(st.segments) && st.previousEnd == EndOf(LastSpan(g, blocks))
  }

  predicate Wrong(g: Setting, blocks: seq<Block>, notes: seq<Note>)
  {
    SegmentsMeant(g, blocks).None? || !KeysOk(notes) || RangesMeant(g, notes).None?
  }

  lemma BlocksMore(blocks: seq<Block>, b: Block)
    ensures var more := blocks + [b];
            more != [] && more[|more| - 1] == b && more[..|more| - 1] == blocks
    ensures Outer(blocks + [b]) == Outer(blocks) + b.notes && Anywhere(blocks + [b]) == Anywhere(blocks) + (b.notes + b.inner)
  {
    var more := blocks + [b];
    assert more[..|more| - 1] == blocks;
  }

  /** A segment that is complete. */
  lemma PushTold(g: Setting, blocks: seq<Block>, b: Block, st: State, uri: string)
    requires Knows(g, st, Outer(blocks) + b.notes, Anywhere(blocks) + (b.notes + b.inner), b.notes + b.inner)
    requires st.previousEnd == EndOf(LastSpan(g, blocks))
    requires SegmentsMeant(g, blocks) == Some(st.segments)
    ensures var t := Push(st, g.num(b.duration), uri);
            && t.segments == st.segments + [SegmentMeant(g, blocks + [b], uri)]
            && t.previousEnd == EndOf(LastSpan(g, blocks + [b]))
            && Knows(g, t, Outer(blocks + [b]), Anywhere(blocks + [b]), [])
  {
    BlocksMore(blocks, b);
    SegmentsCount(g, blocks);
    hide Outer, Anywhere, KeyMeant, MapMeant, RangesMeant, Vars, KeysOk, SegmentsMeant, Trim, NumberOf;
    assert LastSpan(g, blocks + [b]) == SpanMeant(g, b.notes + b.inner, LastSpan(g, blocks));
    assert Placed(st.byteRange, st.previousEnd) == SpanMeant(g, b.notes + b.inner, LastSpan(g, blocks));
  }

  lemma {:induction false} SegmentsCount(g: Setting, blocks: seq<Block>)
    ensures SegmentsMeant(g, blocks).Some? ==> |SegmentsMeant(g, blocks).value| == |blocks|
    decreases |blocks|
  {
    hide SegmentMeant, Expanded, Vars, Outer;
    if blocks != [] { SegmentsCount(g, blocks[..|blocks| - 1]); }
  }

  /** The lines of a segment up to its address. */
  lemma OpenRun(g: Setting, st: State, blocks: seq<Block>, b: Block)
    requires Told(g, blocks, st) && BlockOk(g, b)
    ensures match Fold(g, Machine(st, Mode.Outer), OpenLines(b))
            case None => Wrong(g, blocks, Outer(blocks) + b.notes)
            case Some(m) =>
              && m.mode == Waiting(g.num(b.duration)) && m.state.segments == st.segments && m.state.previousEnd == st.previousEnd
              && Knows(g, m.state, Outer(blocks) + b.notes, Anywhere(blocks) + (b.notes + b.inner), b.notes + b.inner)
  {
    hide Knows, NotesOk, Step, ExtinfLine, KeysOk, RangesMeant, Outer, Anywhere, SegmentsMeant, LastSpan, EndOf;
    var first, second := NoteLines(b.notes), [ExtinfLine(b)] + NoteLines(b.inner);
    FoldAppend(g, Machine(st, Mode.Outer), first, second);
    OuterRun(g, st, b.notes, Outer(blocks), Anywhere(blocks), []);
    assert [] + b.notes == b.notes;
    var m := Fold(g, Machine(st, Mode.Outer), first);
    if m.Some? {
      FoldStep(g, m.value, ExtinfLine(b), NoteLines(b.inner));
      ExtinfRead(g, m.value.state, b);
      InnerRun(g, m.value.state, g.num(b.duration), b.inner, Outer(blocks) + b.notes, Anywhere(blocks) + b.notes, b.notes);
      assert (Anywhere(blocks) + b.notes) + b.inner == Anywhere(blocks) + (b.notes + b.inner);
    }
  }

  /** The lines of a segment that has no address. */
  function OpenLines(b: Block): seq<string>
  {
    NoteLines(b.notes) + ([ExtinfLine(b)] + NoteLines(b.inner))
  }

  lemma BlockRun(g: Setting, st: State, blocks: seq<Block>, b: Block)
    requires Told(g, blocks, st) && BlockOk(g, b)
    ensures match Fold(g, Machine(st, Mode.Outer), BlockLines(b))
            case None => Wrong(g, blocks + [b], Outer(blocks + [b]))
            case Some(m) => m.mode == Mode.Outer && Told(g, blocks + [b], m.state)
  {
    hide NotesOk, Step, ExtinfLine, KeysOk, RangesMeant, Outer, Anywhere, LastSpan, EndOf, Push, NoteLines, Expanded, SegmentMeant, Knows;
    BlocksMore(blocks, b);
    OpenRun(g, st, blocks, b);
    assert BlockLines(b) == OpenLines(b) + [PiecesText(b.address)];
    FoldAppend(g, Machine(st, Mode.Outer), OpenLines(b), [PiecesText(b.address)]);
    var m := Fold(g, Machine(st, Mode.Outer), OpenLines(b));
    if m.Some? {
      AddressStep(g, m.value.state, g.num(b.duration), b);
      VarsKnown(g, m.value.state, Outer(blocks) + b.notes, Anywhere(blocks) + (b.notes + b.inner), b.notes + b.inner);
      FoldStep(g, m.value, PiecesText(b.address), []);
      assert [PiecesText(b.address)] + [] == [PiecesText(b.address)];
      var uri := Expanded(b.address, m.value.state.defines);
      if uri.Some? { PushTold(g, blocks, b, m.value.state, uri.value); }
    }
  }

  lemma VarsKnown(g: Setting, st: State, outer: seq<Note>, anywhere: seq<Note>, own: seq<Note>)
    requires Knows(g, st, outer, anywhere, own)
    ensures st.defines == Vars(g, outer) && KeysOk(outer) && RangesMeant(g, outer) == Some(st.dateRanges)
  {
  }

  lemma {:induction false} BlocksAppend(blocks: seq<Block>, b: Block)
    ensures BlocksLines(blocks + [b]) == BlocksLines(blocks) + BlockLines(b)
  {
    hide BlockLines;
    if blocks == [] {
      assert [] + [b] == [b] && [b][1..] == [] && BlocksLines([]) == [];
      assert BlocksLines([b]) == BlockLines(b) + BlocksLines([]);
      assert BlockLines(b) + [] == BlockLines(b) && [] + BlockLines(b) == BlockLines(b);
    } else {
      BlocksAppend(blocks[1..], b);
      assert (blocks + [b])[0] == blocks[0] && (blocks + [b])[1..] == blocks[1..] + [b];
    }
  }

  lemma {:induction false} BlocksRun(g: Setting, blocks: seq<Block>)
    requires forall b :: b in blocks ==> BlockOk(g, b)
    ensures match Fold(g, Machine(Fresh(g), Mode.Outer), BlocksLines(blocks))
            case None => Wrong(g, blocks, Outer(blocks))
            case Some(m) => m.mode == Mode.Outer && Told(g, blocks, m.state)
    decreases |blocks|
  {
    hide BlockOk, Step, BlockLines, Told;
    if blocks == [] {
      NothingTold(g);
    } else {
      var n := |blocks| - 1;
      var front, b := blocks[..n], blocks[n];
      assert blocks == front + [b] && b in blocks && forall x :: x in front ==> x in blocks;
      BlocksRun(g, front);
      BlocksAppend(front, b);
      FoldAppend(g, Machine(Fresh(g), Mode.Outer), BlocksLines(front), BlockLines(b));
      var m := Fold(g, Machine(Fresh(g), Mode.Outer), BlocksLines(front));
      if m.Some? { BlockRun(g, m.value.state, front, b); } else { WrongStays(g, front, b); }
    }
  }

  lemma NothingTold(g: Setting)
    ensures Told(g, [], Fresh(g))
  {
  }

  lemma WrongStays(g: Setting, blocks: seq<Block>, b: Block)
    requires Wrong(g, blocks, Outer(blocks))
    ensures Wrong(g, blocks + [b], Outer(blocks + [b]))
  {
    hide SegmentMeant, Expanded, Vars, KeysOk, RangesMeant, Outer;
    BlocksMore(blocks, b);
    ErrorsStay(g, Outer(blocks), b.notes);
  }

  // ------------------------------------------------------------------ whole playlists

  /** What is returned is what the last notes of each kind say, and the segments. */
  lemma ReturnedIs(g: Setting, st: State, notes: seq<Note>, anywhere: seq<Note>, own: seq<Note>)
    requires Knows(g, st, notes, anywhere, own)
    ensures Returned(st) == PlaylistOf(g, notes, st.segments, st.dateRanges)
  {
    hide KeyMeant, MapMeant, LastOf, RangesMeant, Vars, KeysOk, Trim, Waits, NumberOf;
  }

  /** The lines of any playlist: segments with whatever notes in front of and behind their EXTINF lines, and notes at the end. */
  lemma PlaylistMeans(g: Setting, blocks: seq<Block>, rest: seq<Note>)
    requires (forall b :: b in blocks ==> BlockOk(g, b)) && NotesOk(g, rest)
    ensures Playlist(g, BlocksLines(blocks) + NoteLines(rest)) == Meant(g, blocks, rest)
  {
    hide BlockOk, NotesOk, Step, BlocksLines, NoteLines, Outer, Anywhere, Knows, SegmentsMeant, RangesMeant, KeysOk, PlaylistOf, Returned,
         LastSpan, EndOf;
    BlocksRun(g, blocks);
    FoldAppend(g, Machine(Fresh(g), Mode.Outer), BlocksLines(blocks), NoteLines(rest));
    var m := Fold(g, Machine(Fresh(g), Mode.Outer), BlocksLines(blocks));
    if m.Some? {
      OuterRun(g, m.value.state, rest, Outer(blocks), Anywhere(blocks), []);
      var last := Fold(g, m.value, NoteLines(rest));
      if last.Some? {
        ReturnedIs(g, last.value.state, Outer(blocks) + rest, Anywhere(blocks) + rest, [] + rest);
        VarsKnown(g, last.value.state, Outer(blocks) + rest, Anywhere(blocks) + rest, [] + rest);
      }
    } else {
      ErrorsStay(g, Outer(blocks), rest);
    }
  }

  /** When the text ends before an address, the segment has an empty one. */
  lemma OpenMeans(g: Setting, blocks: seq<Block>, b: Block)
    requires (forall x :: x in blocks ==> BlockOk(g, x)) && BlockOk(g, b)
    ensures Playlist(g, BlocksLines(blocks) + OpenLines(b))
         == if Wrong(g, blocks, Outer(blocks + [b])) then None
            else Some(PlaylistOf(g, Outer(blocks + [b]), SegmentsMeant(g, blocks).value + [SegmentMeant(g, blocks + [b], "")],
                                 RangesMeant(g, Outer(blocks + [b])).value))
  {
    hide BlockOk, NotesOk, Step, BlocksLines, NoteLines, Outer, Anywhere, Knows, SegmentsMeant, RangesMeant, KeysOk, PlaylistOf, Returned,
         LastSpan, EndOf, OpenLines, SegmentMeant, Push;
    BlocksMore(blocks, b);
    BlocksRun(g, blocks);
    FoldAppend(g, Machine(Fresh(g), Mode.Outer), BlocksLines(blocks), OpenLines(b));
    var m := Fold(g, Machine(Fresh(g), Mode.Outer), BlocksLines(blocks));
    if m.Some? {
      OpenRun(g, m.value.state, blocks, b);
      var last := Fold(g, m.value, OpenLines(b));
      if last.Some? {
        PushTold(g, blocks, b, last.value.state, "");
        var t := Push(last.value.state, g.num(b.duration), "");
        ReturnedIs(g, t, Outer(blocks + [b]), Anywhere(blocks + [b]), []);
        VarsKnown(g, t, Outer(blocks + [b]), Anywhere(blocks + [b]), []);
      }
    } else {
      ErrorsStay(g, Outer(blocks), b.notes);
    }
  }

  // ------------------------------------------------------------------ the text

  /** A line with white space around it and one of three line endings, or nothing but white space. */
  datatype Row = Row(front: string, line: string, back: string, ending: string) | Gap(white: string, ending: string)

  function RowText(r: Row): string
  {
    match r
    case Row(front, line, back, ending) => (front + line + back) + ending
    case Gap(white, ending) => white + ending
  }

  function Layout(rows: seq<Row>): string
  {
    if rows == [] then "" else RowText(rows[0]) + Layout(rows[1..])
  }

  function RowLines(rows: seq<Row>): seq<string>
  {
    if rows == [] then [] else (if rows[0].Row? then [rows[0].line] else []) + RowLines(rows[1..])
  }

  predicate Unbroken(s: string)
  {
    forall c :: c in s ==> NotBreak(c)
  }

  predicate Ending(e: string)
  {
    e == "\n" || e == "\r\n" || e == "\r"
  }

  predicate RowOk(r: Row)
  {
    match r
    case Row(front, line, back, _) =>
      AllTrimmed(front) && AllTrimmed(back) && line != "" && Tight(line) && Unbroken(front) && Unbroken(line) && Unbroken(back)
    case Gap(white, _) => forall c :: c in white ==> IsBlank(c)
  }

  /** Only the last line may go without an ending. */
  predicate RowsOk(rows: seq<Row>)
  {
    rows != [] ==> RowOk(rows[0]) && (Ending(rows[0].ending) || (rows[0].ending == "" && rows[1..] == [])) && RowsOk(rows[1..])
  }

  lemma BehindEnding(s: string, e: nat, ending: string, rest: string)
    requires e <= |s| && s[e..] == ending + rest && (Ending(ending) || (ending == "" && rest == ""))
    ensures e + |ending| <= |s| && s[e + |ending|..] == rest && Lines(s, BehindBreak(s, e)) == Lines(s, e + |ending|)
    ensures e < |s| ==> !NotBreak(s[e])
  {
    hide Lines;
    Here(s, e, ending, rest);
    if ending == "" {
      NoLine(s, e);
      NoLine(s, BehindBreak(s, e));
    } else {
      assert s[e] == ending[0];
      if ending == "\r\n" { assert s[e + 1] == ending[1]; }
      if ending == "\r" && rest != "" && rest[0] == '\n' {
        assert s[e + 1] == s[e + 1..][0];
        BlankHere(s, e + 1);
        LinesStep(s, e + 1);
      }
      if ending == "\n" || ending == "\r" { assert rest != "" ==> e + 1 < |s| && s[e + 1] == s[e + 1..][0]; }
    }
  }

  lemma BlankHere(s: string, pos: nat)
    requires pos < |s| && s[pos] == '\n'
    ensures BlankLine(s, pos) && RunEnd(s, pos, IsBlank) == pos && BehindBreak(s, pos) == pos + 1
  {
  }

  lemma RowRead(s: string, pos: nat, r: Row, rest: string)
    requires r.Row? && RowOk(r) && (Ending(r.ending) || (r.ending == "" && rest == "")) && pos <= |s| && s[pos..] == RowText(r) + rest
    ensures pos + |RowText(r)| <= |s| && s[pos + |RowText(r)|..] == rest
    ensures Lines(s, pos) == [r.line] + Lines(s, pos + |RowText(r)|)
  {
    hide Lines, RunEnd, IsTrimmed, BehindBreak, Ending, AllTrimmed, Tight, Unbroken, Trim, BlankLine;
    var body := r.front + r.line + r.back;
    assert (body + r.ending) + rest == body + (r.ending + rest);
    Here(s, pos, body, r.ending + rest);
    var e := pos + |body|;
    BehindEnding(s, e, r.ending, rest);
    Shown(s, pos, r, body);
    RunsTo(s, pos, body, r.ending + rest);
    TrimIs(r.front, r.line, r.back);
    LinesStep(s, pos);
  }

  lemma RunsTo(s: string, pos: nat, body: string, rest: string)
    requires pos <= |s| && s[pos..] == body + rest && Unbroken(body) && (rest == "" || !NotBreak(rest[0]))
    ensures RunEnd(s, pos, NotBreak) == pos + |body| && Sub(s, pos, pos + |body|) == body
  {
    hide RunEnd;
    RunOver(s, pos, body, rest, NotBreak);
  }

  /** A line with something on it is not blank. */
  lemma Shown(s: string, pos: nat, r: Row, body: string)
    requires r.Row? && RowOk(r) && body == r.front + r.line + r.back && pos + |body| <= |s| && s[pos..pos + |body|] == body
    ensures pos < |s| && !BlankLine(s, pos) && Unbroken(body)
    ensures AllTrimmed(r.front) && Tight(r.line) && AllTrimmed(r.back)
  {
    hide RunEnd, IsTrimmed;
    var q, b := pos + |r.front|, RunEnd(s, pos, IsBlank);
    assert forall k :: 0 <= k < |body| ==> s[pos + k] == body[k];
    assert s[q] == body[|r.front|] == r.line[0];
    WhiteTrimmed(s[q]);
    RunHolds(s, pos, IsBlank);
    assert s[b] == body[b - pos] && body[b - pos] in body;
    assert forall c :: c in body ==> c in r.front || c in r.line || c in r.back;
  }

  lemma WhiteTrimmed(c: char)
    ensures IsBlank(c) ==> IsTrimmed(c)
  {
  }

  lemma GapRead(s: string, pos: nat, r: Row, rest: string)
    requires r.Gap? && RowOk(r) && (Ending(r.ending) || (r.ending == "" && rest == "")) && pos <= |s| && s[pos..] == RowText(r) + rest
    ensures pos + |RowText(r)| <= |s| && s[pos + |RowText(r)|..] == rest && Lines(s, pos) == Lines(s, pos + |RowText(r)|)
  {
    hide Lines, RunEnd, BehindBreak, Ending, IsBlank, NotBreak;
    assert RowText(r) + rest == r.white + (r.ending + rest);
    Here(s, pos, r.white, r.ending + rest);
    var e := pos + |r.white|;
    BehindEnding(s, e, r.ending, rest);
    BlankEnds(s, pos, r.white, r.ending + rest);
    if pos < |s| { LinesStep(s, pos); } else { NoLine(s, pos); }
  }

  lemma BlankEnds(s: string, pos: nat, white: string, rest: string)
    requires pos <= |s| && s[pos..] == white + rest && (forall c :: c in white ==> IsBlank(c))
    requires pos + |white| < |s| ==> !NotBreak(s[pos + |white|])
    ensures RunEnd(s, pos, IsBlank) == pos + |white| && BlankLine(s, pos)
  {
    hide RunEnd;
    Here(s, pos, white, rest);
    if rest != "" { assert s[pos + |white|] == s[pos + |white|..][0]; }
    RunOver(s, pos, white, rest, IsBlank);
  }

  /** White space around lines, blank lines and the kind of line ending mean nothing. */
  lemma {:induction false} LayoutRead(s: string, pos: nat, rows: seq<Row>)
    requires RowsOk(rows) && pos <= |s| && s[pos..] == Layout(rows)
    ensures Lines(s, pos) == RowLines(rows)
    decreases |rows|
  {
    hide Lines, RowOk, RowText, Ending;
    if rows == [] {
      NoLine(s, pos);
    } else {
      var r, rest := rows[0], Layout(rows[1..]);
      if r.Row? { RowRead(s, pos, r, rest); } else { GapRead(s, pos, r, rest); }
      LayoutRead(s, pos + |RowText(r)|, rows[1..]);
    }
  }

  /** The text of a playlist: the header, with white space in front of it and anything behind it, and the lines. */
  function Text(white: string, extra: string, ending: string, rows: seq<Row>): string
  {
    white + ("#EXTM3U" + (extra + (ending + Layout(rows))))
  }

  lemma TextLines(g: Setting, white: string, extra: string, ending: string, rows: seq<Row>)
    requires AllWhite(white) && Unbroken(extra) && RowsOk(rows) && (Ending(ending) || (ending == "" && rows == []))
    ensures Parsed(g, Text(white, extra, ending, rows)) == Playlist(g, RowLines(rows))
  {
    hide Lines, RunEnd, Playlist, EXTM3U, Layout, BehindBreak, IsWhite, RowsOk, Ending;
    var text, more := Text(white, extra, ending, rows), ending + Layout(rows);
    HeaderTag();
    assert text[0..] == text;
    Here(text, 0, white, "#EXTM3U" + (extra + more));
    RunOver(text, 0, white, "#EXTM3U" + (extra + more), IsWhite);
    var p := |white|;
    Here(text, p, "#EXTM3U", extra + more);
    assert StartsAt(text, p, EXTM3U);
    Here(text, p + 7, extra, more);
    var e := p + 7 + |extra|;
    if ending == "" { NoLayout(rows); }
    BehindEnding(text, e, ending, Layout(rows));
    if more != "" { assert text[e] == text[e..][0]; }
    RunsTo(text, p + 7, extra, more);
    LayoutRead(text, e + |ending|, rows);
  }

  lemma HeaderTag()
    ensures EXTM3U == "#EXTM3U" && |EXTM3U| == 7 && !IsWhite('#') && "#EXTM3U"[0] == '#'
  {
  }

  lemma NoLayout(rows: seq<Row>)
    ensures rows == [] ==> Layout(rows) == ""
  {
  }

  /** The parser returns what a playlist says: any segments, notes and variables, laid out in any way. */
  lemma WrittenBack(g: Setting, white: string, extra: string, ending: string, rows: seq<Row>, blocks: seq<Block>, rest: seq<Note>)
    requires AllWhite(white) && Unbroken(extra) && RowsOk(rows) && (Ending(ending) || (ending == "" && rows == []))
    requires (forall b :: b in blocks ==> BlockOk(g, b)) && NotesOk(g, rest)
    requires RowLines(rows) == BlocksLines(blocks) + NoteLines(rest)
    ensures Parsed(g, Text(white, extra, ending, rows)) == Meant(g, blocks, rest)
  {
    hide *;
    TextLines(g, white, extra, ending, rows);
    PlaylistMeans(g, blocks, rest);
  }

  /** A text that does not begin with the header is refused. */
  lemma HeaderNeeded(g: Setting, white: string, rest: string)
    requires AllWhite(white) && (rest == "" || !IsWhite(rest[0])) && !("#EXTM3U" <= rest)
    ensures Parsed(g, white + rest) == None
  {
    hide Lines, RunEnd, Playlist, BehindBreak, IsWhite;
    var text := white + rest;
    assert text[0..] == text;
    RunOver(text, 0, white, rest, IsWhite);
    assert text[|white|..] == rest;
    if |rest| >= 7 { assert rest[..7] == text[|white|..|white| + 7]; }
  }
}

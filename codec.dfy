/**
 * The presence wire format: a cursor or an in-progress connection is written
 * to its author's feed as one `/`-joined string of fields in a fixed order,
 * an absent optional field being an empty segment.  The same two codecs are
 * copied verbatim into the single store, the cursor slice and the connection
 * slice.
 */
module PresenceCodec {
  import opened Wrappers
  import opened Text

  const SEP: char := '/'

  /** A canvas point as it travels on the wire. */
  datatype Point = Point(x: Num, y: Num)

  /** A cursor payload: its canvas position and whether the user is dragging. */
  datatype CursorPayload = CursorPayload(position: Point, dragging: bool)

  /**
   * A connection being dragged.  `sourceType` and `targetType` are declared
   * as "source" | "target", a union that has no run-time check, so the model
   * keeps them as strings.
   */
  datatype Connection = Connection(
    source: string,
    sourceType: string,
    sourceHandle: Option<string>,
    target: Option<string>,
    targetType: Option<string>,
    targetHandle: Option<string>,
    position: Point)

  /** `parts[i]`, undefined past the end (array destructuring). */
  function Segment(parts: seq<string>, i: nat): Option<string> {
    if i < |parts| then Some(parts[i]) else None
  }

  /** `Number(segment)`: `Number(undefined)` is NaN. */
  function NumberOf(segment: Option<string>): Num {
    match segment
    case None => NaN
    case Some(s) => ParseNumber(s)
  }

  /** `value || ""`. */
  function OrEmpty(value: Option<string>): string {
    value.GetOr("")
  }

  /**
   * `${x}/${y}/${dragging ? "1" : "0"}` (cursors.ts:7-11, app-store.tsx:105-109):
   * always exactly three segments, the last one "1" exactly when dragging.
   */
  function SerializeCursor(c: CursorPayload): (r: string)
    ensures |Split(r, SEP)| == 3
    ensures Split(r, SEP)[2] == "1" <==> c.dragging
  {
    var parts := [NumToString(c.position.x), NumToString(c.position.y), if c.dragging then "1" else "0"];
    SplitJoin(parts, SEP);
    Join(parts, SEP)
  }

  /**
   * Splits on the separator and reads the segments positionally
   * (cursors.ts:13-19, app-store.tsx:111-117): a missing y is NaN, and a
   * value with fewer than three segments is never dragging.
   */
  function DeserializeCursor(value: string): (r: CursorPayload)
    ensures |Split(value, SEP)| < 3 ==> !r.dragging
    ensures |Split(value, SEP)| < 2 ==> r.position.y == NaN
  {
    var parts := Split(value, SEP);
    CursorPayload(Point(ParseNumber(parts[0]), NumberOf(Segment(parts, 1))), Segment(parts, 2) == Some("1"))
  }

  /**
   * The eight fields joined in a fixed order, absent ones as empty segments
   * (connections.ts:6-12, app-store.tsx:119-125): a connection whose fields
   * are wire-safe is written as exactly eight segments, its source first.
   */
  function SerializeConnection(c: Connection): (r: string)
    ensures ConnectionWireSafe(c) ==> |Split(r, SEP)| == 8 && Split(r, SEP)[0] == c.source
  {
    var parts := [c.source, c.sourceType, OrEmpty(c.sourceHandle), OrEmpty(c.target), OrEmpty(c.targetType),
                  OrEmpty(c.targetHandle), NumToString(c.position.x), NumToString(c.position.y)];
    if ConnectionWireSafe(c) then
      SplitJoin(parts, SEP);
      Join(parts, SEP)
    else
      Join(parts, SEP)
  }

  /**
   * Reads the segments positionally, empty optional segments as absent
   * (connections.ts:14-34, app-store.tsx:127-147): whatever the input, the
   * result is a connection that its own wire form can carry.
   */
  function DeserializeConnection(value: string): (r: Connection)
    ensures ConnectionWireSafe(r)
  {
    var parts := Split(value, SEP);
    Connection(
      parts[0],
      Segment(parts, 1).GetOr(""),
      NonEmptyOrAbsent(Segment(parts, 2)),
      NonEmptyOrAbsent(Segment(parts, 3)),
      NonEmptyOrAbsent(Segment(parts, 4)),
      NonEmptyOrAbsent(Segment(parts, 5)),
      Point(NumberOf(Segment(parts, 6)), NumberOf(Segment(parts, 7))))
  }

  /** Every cursor survives the trip through its wire form, NaN coordinates included. */
  lemma CursorRoundTrip(c: CursorPayload)
    ensures DeserializeCursor(SerializeCursor(c)) == c
    ensures |Split(SerializeCursor(c), SEP)| == 3
  {
    var parts := [NumToString(c.position.x), NumToString(c.position.y), if c.dragging then "1" else "0"];
    NumRoundTrip(c.position.x);
    NumRoundTrip(c.position.y);
    SplitJoin(parts, SEP);
  }

  /** The third segment decides `dragging`: only "1" reads as dragging. */
  lemma {:induction false} DraggingFlag(x: Num, y: Num, flag: string)
    requires '/' !in flag
    ensures DeserializeCursor(Join([NumToString(x), NumToString(y), flag], SEP)).dragging <==> flag == "1"
    ensures DeserializeCursor(Join([NumToString(x), NumToString(y), flag], SEP)).position == Point(x, y)
  {
    NumRoundTrip(x);
    NumRoundTrip(y);
    SplitJoin([NumToString(x), NumToString(y), flag], SEP);
  }

  /** A value without a separator is read as the x coordinate alone. */
  lemma TruncatedCursor(value: string)
    requires SEP !in value
    ensures DeserializeCursor(value) == CursorPayload(Point(ParseNumber(value), NaN), false)
  {
    SplitWithoutSeparator(value, SEP);
  }

  /** A string field travels safely when it holds no separator. */
  predicate WireSafe(s: string) {
    SEP !in s
  }

  /** An optional field travels safely when, if present, it is non-empty and separator-free. */
  predicate OptionalWireSafe(o: Option<string>) {
    o.Some? ==> o.value != "" && WireSafe(o.value)
  }

  predicate ConnectionWireSafe(c: Connection) {
    && WireSafe(c.source) && WireSafe(c.sourceType)
    && OptionalWireSafe(c.sourceHandle) && OptionalWireSafe(c.target)
    && OptionalWireSafe(c.targetType) && OptionalWireSafe(c.targetHandle)
  }

  /**
   * A connection whose string fields carry no separator and whose present
   * optional fields are non-empty survives its wire form, which has exactly
   * eight segments.
   */
  lemma ConnectionRoundTrip(c: Connection)
    requires ConnectionWireSafe(c)
    ensures DeserializeConnection(SerializeConnection(c)) == c
    ensures |Split(SerializeConnection(c), SEP)| == 8
  {
    var parts := [c.source, c.sourceType, OrEmpty(c.sourceHandle), OrEmpty(c.target), OrEmpty(c.targetType),
                  OrEmpty(c.targetHandle), NumToString(c.position.x), NumToString(c.position.y)];
    NumRoundTrip(c.position.x);
    NumRoundTrip(c.position.y);
    SplitJoin(parts, SEP);
  }

  /**
   * Decoding is canonical: re-encoding a decoded connection and decoding
   * it again gives the same connection.
   */
  lemma DecodeReencode(value: string)
    ensures DeserializeConnection(SerializeConnection(DeserializeConnection(value))) == DeserializeConnection(value)
  {
    ConnectionRoundTrip(DeserializeConnection(value));
  }

  /** A value without a separator is read as a source alone, every other field missing. */
  lemma TruncatedConnection(value: string)
    requires SEP !in value
    ensures DeserializeConnection(value) == Connection(value, "", None, None, None, None, Point(NaN, NaN))
  {
    SplitWithoutSeparator(value, SEP);
  }

  /** An optional field that is present but empty is written like an absent one. */
  lemma EmptyOptionalIsAbsent(c: Connection)
    ensures SerializeConnection(c.(sourceHandle := Some(""))) == SerializeConnection(c.(sourceHandle := None))
    ensures SerializeConnection(c.(target := Some(""))) == SerializeConnection(c.(target := None))
    ensures SerializeConnection(c.(targetType := Some(""))) == SerializeConnection(c.(targetType := None))
    ensures SerializeConnection(c.(targetHandle := Some(""))) == SerializeConnection(c.(targetHandle := None))
  {
  }

  /** What `updateConnection(undefined)` publishes to clear a preview (connections.ts:103-111). */
  const CLEARING_SENTINEL: Connection :=
    Connection("", "source", Some(""), None, None, None, Point(Int(0), Int(0)))

  /** The clearing sentinel reads back as an empty source with every optional field absent at (0,0). */
  lemma ClearingSentinelDecodes()
    ensures DeserializeConnection(SerializeConnection(CLEARING_SENTINEL))
         == Connection("", "source", None, None, None, None, Point(Int(0), Int(0)))
  {
    var c := CLEARING_SENTINEL.(sourceHandle := None);
    EmptyOptionalIsAbsent(CLEARING_SENTINEL);
    ConnectionRoundTrip(c);
  }
}

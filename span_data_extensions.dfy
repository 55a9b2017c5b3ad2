/**
 * Conversion of a finished span into its storage form (`SpanEntity`): most fields
 * are copied, the attribute map goes through a JSON encoder, and the span events
 * become one JSON array built by hand from a string template per event.
 *
 * The JSON encoder for attribute maps is a parameter: its output is not modelled.
 */
module SpanDataExtensions {
  import opened Wrappers
  import opened SpanModel

  /** The JSON encoding of an attribute map. */
  type JsonEncoder = AttrMap -> string

  /** A span as stored in the database. */
  datatype SpanEntity = SpanEntity(
    name: string,
    spanId: string,
    startTime: int,
    sessionId: string,
    duration: int,
    status: SpanStatus,
    parentId: Option<string>,
    endTime: int,
    traceId: string,
    serializedSpanEvents: string,
    serializedAttributes: string,
    hasEnded: bool
  )

  // ---------------------------------------------------------------------------
  // Decimal rendering of a Long, as string templates print it, and its reader.
  // ---------------------------------------------------------------------------

  predicate IsDigit(c: char) {
    '0' <= c <= '9'
  }

  predicate AllDigits(s: string) {
    forall i | 0 <= i < |s| :: IsDigit(s[i])
  }

  function DigitValue(c: char): (d: nat)
    requires IsDigit(c)
    ensures d < 10
  {
    c as int - '0' as int
  }

  function DigitChar(d: nat): (c: char)
    requires d < 10
    ensures IsDigit(c) && DigitValue(c) == d
  {
    ('0' as int + d) as char
  }

  /** The decimal digits of `n`: at least one, and no leading zero. */
  function NatToString(n: nat): (s: string)
    ensures |s| >= 1 && AllDigits(s)
    ensures s[0] == '0' <==> n == 0
    ensures |s| > 1 ==> s[0] != '0'
  {
    if n < 10 then [DigitChar(n)] else NatToString(n / 10) + [DigitChar(n % 10)]
  }

  /** The number a string of decimal digits denotes. */
  function ParseNat(s: string): nat
    requires AllDigits(s)
  {
    if |s| == 0 then 0 else ParseNat(s[..|s| - 1]) * 10 + DigitValue(s[|s| - 1])
  }

  lemma {:induction false} ParseNatToString(n: nat)
    ensures ParseNat(NatToString(n)) == n
  {
    var s := NatToString(n);
    if n >= 10 {
      assert s[..|s| - 1] == NatToString(n / 10);
      ParseNatToString(n / 10);
    } else {
      assert s[..|s| - 1] == [];
    }
  }

  /** A Long in decimal, with a leading `-` when negative. */
  function LongToString(t: int): (s: string)
    ensures |s| >= 1
    ensures s[0] == '-' <==> t < 0
    ensures t < 0 ==> AllDigits(s[1..])
    ensures t >= 0 ==> AllDigits(s)
  {
    if t < 0 then "-" + NatToString(-t) else NatToString(t)
  }

  /** The length of the run of digits that `s` starts with. */
  function DigitRun(s: string): (n: nat)
    ensures n <= |s|
    ensures AllDigits(s[..n])
    ensures n < |s| ==> !IsDigit(s[n])
  {
    if |s| == 0 || !IsDigit(s[0]) then 0
    else
      var m := DigitRun(s[1..]);
      assert s[..1 + m] == [s[0]] + s[1..][..m];
      1 + m
  }

  /**
   * Reads a decimal Long at the front of `s` (an optional `-` and a run of
   * digits) and returns it with what follows it.
   */
  function ReadLong(s: string): Option<(int, string)>
  {
    if |s| > 0 && s[0] == '-' then
      var n := DigitRun(s[1..]);
      if n == 0 then None
      else
        var magnitude: int := ParseNat(s[1..][..n]);
        Some((-magnitude, s[1..][n..]))
    else
      var n := DigitRun(s);
      if n == 0 then None else Some((ParseNat(s[..n]), s[n..]))
  }

  lemma {:induction false} DigitRunOfDigits(d: string, rest: string)
    requires AllDigits(d)
    requires rest == [] || !IsDigit(rest[0])
    ensures DigitRun(d + rest) == |d|
  {
    if |d| == 0 {
      assert d + rest == rest;
    } else {
      assert (d + rest)[1..] == d[1..] + rest;
      DigitRunOfDigits(d[1..], rest);
    }
  }

  /** A run of digits followed by a non-digit is read as that run, and the rest is left. */
  lemma ReadDigits(d: string, rest: string)
    requires AllDigits(d)
    requires rest == [] || !IsDigit(rest[0])
    ensures DigitRun(d + rest) == |d|
    ensures (d + rest)[..|d|] == d && (d + rest)[|d|..] == rest
  {
    DigitRunOfDigits(d, rest);
  }

  /** Reading back a rendered Long gives the number and leaves what followed it. */
  lemma ReadLongToString(t: int, rest: string)
    requires rest == [] || !IsDigit(rest[0])
    ensures ReadLong(LongToString(t) + rest) == Some((t, rest))
  {
    if t < 0 {
      ReadNegative(t, rest);
    } else {
      var d := NatToString(t);
      assert LongToString(t) + rest == d + rest;
      ReadDigits(d, rest);
      ParseNatToString(t);
      assert IsDigit(d[0]);
    }
  }

  lemma ReadNegative(t: int, rest: string)
    requires t < 0
    requires rest == [] || !IsDigit(rest[0])
    ensures ReadLong(LongToString(t) + rest) == Some((t, rest))
  {
    var m: nat := -t;
    var d := NatToString(m);
    assert LongToString(t) == "-" + d;
    var s := LongToString(t) + rest;
    assert s[0] == '-' && s[1..] == d + rest;
    ReadDigits(d, rest);
    ParseNatToString(m);
    assert ParseNat(s[1..][..|d|]) == m;
  }

  // ---------------------------------------------------------------------------
  // JSON string bodies.
  // ---------------------------------------------------------------------------

  /** The characters that cannot appear unescaped inside a JSON string. */
  predicate NeedsEscape(c: char) {
    c == '"' || c == '\\'
  }

  /** `s` with a backslash put before every quote and backslash. */
  function Escape(s: string): (e: string)
    ensures |e| >= |s|
    ensures (forall i | 0 <= i < |s| :: !NeedsEscape(s[i])) ==> e == s
  {
    if |s| == 0 then ""
    else EscapeChar(s[0]) + Escape(s[1..])
  }

  /** One character as it appears inside a JSON string. */
  function EscapeChar(c: char): (e: string)
    ensures NeedsEscape(c) ==> e == ['\\', c]
    ensures !NeedsEscape(c) ==> e == [c]
  {
    if NeedsEscape(c) then ['\\', c] else [c]
  }

  /**
   * Reads the body of a JSON string up to its closing quote, undoing backslash
   * escapes, and returns the text with what follows the closing quote.
   */
  function ReadString(s: string): Option<(string, string)>
  {
    if |s| == 0 then None
    else if s[0] == '"' then Some(("", s[1..]))
    else if s[0] == '\\' then
      if |s| < 2 then None
      else match ReadString(s[2..])
        case None => None
        case Some(p) => Some(([s[1]] + p.0, p.1))
    else match ReadString(s[1..])
      case None => None
      case Some(p) => Some(([s[0]] + p.0, p.1))
  }

  /** An escaped character in front of a string body is read back as the character. */
  lemma ReadEscapeChar(c: char, tail: string, t: string, rest: string)
    requires ReadString(tail) == Some((t, rest))
    ensures ReadString(EscapeChar(c) + tail) == Some(([c] + t, rest))
  {
    if NeedsEscape(c) {
      assert (['\\', c] + tail)[2..] == tail;
    } else {
      assert ([c] + tail)[1..] == tail;
    }
  }

  /** The escaped text followed by more text splits after its first escaped character. */
  lemma EscapedFront(t: string, more: string)
    requires |t| > 0
    ensures Escape(t) + more == EscapeChar(t[0]) + (Escape(t[1..]) + more)
  {
    assert Escape(t) == EscapeChar(t[0]) + Escape(t[1..]);
    AppendAssoc(EscapeChar(t[0]), Escape(t[1..]), more);
  }

  lemma AppendAssoc(a: string, b: string, c: string)
    ensures a + b + c == a + (b + c)
  {
  }

  /** An escaped text followed by a quote reads back as the text. */
  lemma {:induction false} ReadEscaped(t: string, rest: string)
    ensures ReadString(Escape(t) + "\"" + rest) == Some((t, rest))
  {
    if |t| == 0 {
      assert Escape(t) + "\"" + rest == "\"" + rest;
    } else {
      var e := Escape(t[1..]);
      ReadEscaped(t[1..], rest);
      AppendAssoc(e, "\"", rest);
      AppendAssoc(Escape(t), "\"", rest);
      EscapedFront(t, "\"" + rest);
      ReadEscapeChar(t[0], e + ("\"" + rest), t[1..], rest);
      assert [t[0]] + t[1..] == t;
    }
  }

  // ---------------------------------------------------------------------------
  // One span event.
  // ---------------------------------------------------------------------------

  const NamePrefix: string := "{\"name\":\""
  const TimestampKey: string := ",\"timestamp\":"
  const AttributesKey: string := ",\"attributes\":"

  /**
   * The event rendered by the source's template: the name is inserted as it is,
   * the timestamp in decimal, the attributes as the encoder prints them.
   */
  function SerializeEventAsWritten(e: SpanEvent, encode: JsonEncoder): (s: string)
    ensures |s| > |NamePrefix| + |e.name|
    ensures s[..|NamePrefix|] == NamePrefix
    ensures s[|NamePrefix|..|NamePrefix| + |e.name|] == e.name
    ensures s[|s| - 1] == '}'
  {
    NamePrefix + e.name + "\"" + EventTail(e, encode)
  }

  /** The event rendered with its name escaped as a JSON string requires. */
  function SerializeEvent(e: SpanEvent, encode: JsonEncoder): (s: string)
    ensures |s| > |NamePrefix|
    ensures s[..|NamePrefix|] == NamePrefix
    ensures s[|s| - 1] == '}'
  {
    NamePrefix + Escape(e.name) + "\"" + EventTail(e, encode)
  }

  /** What follows the closing quote of the name. */
  function EventTail(e: SpanEvent, encode: JsonEncoder): (s: string)
    ensures |s| > 0 && s[|s| - 1] == '}'
  {
    TimestampKey + LongToString(e.timestamp) + AttributesKey + encode(e.attributes) + "}"
  }

  predicate StartsWith(s: string, prefix: string) {
    |prefix| <= |s| && s[..|prefix|] == prefix
  }

  /** Recovers the name and the timestamp from the front of a rendered event. */
  function DecodeEventHead(s: string): Option<(string, int)>
  {
    if !StartsWith(s, NamePrefix) then None
    else match ReadString(s[|NamePrefix|..])
      case None => None
      case Some(p) =>
        match DecodeTimestamp(p.1)
        case None => None
        case Some(t) => Some((p.0, t))
  }

  /** Recovers the timestamp from the text after the name. */
  function DecodeTimestamp(s: string): Option<int>
  {
    if !StartsWith(s, TimestampKey) then None
    else match ReadLong(s[|TimestampKey|..])
      case None => None
      case Some(q) => Some(q.0)
  }

  lemma TimestampRoundTrip(e: SpanEvent, encode: JsonEncoder, after: string)
    ensures DecodeTimestamp(EventTail(e, encode) + after) == Some(e.timestamp)
  {
    var tail := AttributesKey + encode(e.attributes) + "}" + after;
    var s := EventTail(e, encode) + after;
    assert s == TimestampKey + (LongToString(e.timestamp) + tail);
    assert s[..|TimestampKey|] == TimestampKey;
    assert s[|TimestampKey|..] == LongToString(e.timestamp) + tail;
    assert tail[0] == ',';
    ReadLongToString(e.timestamp, tail);
  }

  /**
   * The name and the timestamp of every event can be read back from its rendering,
   * whatever text follows it.
   */
  lemma EventHeadRoundTrip(e: SpanEvent, encode: JsonEncoder, after: string)
    ensures DecodeEventHead(SerializeEvent(e, encode) + after) == Some((e.name, e.timestamp))
  {
    var name := Escape(e.name);
    var tail := EventTail(e, encode);
    var rest := tail + after;
    var body := name + "\"" + rest;
    assert SerializeEvent(e, encode) == NamePrefix + name + "\"" + tail;
    AppendAssoc(NamePrefix + name + "\"", tail, after);
    AppendAssoc(NamePrefix + name, "\"", rest);
    AppendAssoc(NamePrefix, name, "\"" + rest);
    AppendAssoc(name, "\"", rest);
    ReadEscaped(e.name, rest);
    TimestampRoundTrip(e, encode, after);
    DecodeHead(SerializeEvent(e, encode) + after, body, rest, e.name, e.timestamp);
  }

  /** A text made of the name prefix, a string body and a timestamp decodes to that name and timestamp. */
  lemma DecodeHead(s: string, body: string, rest: string, name: string, timestamp: int)
    requires s == NamePrefix + body
    requires ReadString(body) == Some((name, rest))
    requires DecodeTimestamp(rest) == Some(timestamp)
    ensures DecodeEventHead(s) == Some((name, timestamp))
  {
    assert s[..|NamePrefix|] == NamePrefix;
    assert s[|NamePrefix|..] == body;
  }

  /** For a name with no quote or backslash, both renderings are the same. */
  lemma PlainNameRendersVerbatim(e: SpanEvent, encode: JsonEncoder)
    requires forall i | 0 <= i < |e.name| :: !NeedsEscape(e.name[i])
    ensures SerializeEvent(e, encode) == SerializeEventAsWritten(e, encode)
  {
  }

  /**
   * A quote in an event name ends the JSON string early: the rendering the source
   * writes for the event named `a"b` does not read back as that name.
   */
  lemma QuotedNameBreaksRendering(encode: JsonEncoder, after: string)
    ensures DecodeEventHead(SerializeEventAsWritten(SpanEvent("a\"b", 0, map[]), encode) + after) != Some(("a\"b", 0))
  {
    var e := SpanEvent("a\"b", 0, map[]);
    var s := SerializeEventAsWritten(e, encode) + after;
    var rest := "b\"" + EventTail(e, encode) + after;
    assert s == NamePrefix + ("a\"" + rest);
    assert s[|NamePrefix|..] == "a\"" + rest;
    ReadStopsAtQuote('a', rest);
    assert ['a'] != "a\"b";
  }

  /** Reading a string stops at the first unescaped quote. */
  lemma ReadStopsAtQuote(c: char, rest: string)
    requires c != '"' && c != '\\'
    ensures ReadString([c, '"'] + rest) == Some(([c], rest))
  {
    var s := [c, '"'] + rest;
    assert s[1..] == ['"'] + rest;
    assert ReadString(s[1..]) == Some(("", rest));
    assert [c] + "" == [c];
  }

  // ---------------------------------------------------------------------------
  // Joining with a separator.
  // ---------------------------------------------------------------------------

  /** The items with `sep` between each neighbouring pair. */
  function Join(items: seq<string>, sep: string): string
  {
    if |items| == 0 then ""
    else if |items| == 1 then items[0]
    else Join(items[..|items| - 1], sep) + sep + items[|items| - 1]
  }

  function TotalLength(items: seq<string>): nat
  {
    if |items| == 0 then 0 else TotalLength(items[..|items| - 1]) + |items[|items| - 1]|
  }

  /** Where item `k` starts in the joined string. */
  function Offset(items: seq<string>, sep: string, k: nat): nat
    requires k <= |items|
  {
    if k == 0 then 0 else Offset(items, sep, k - 1) + |items[k - 1]| + |sep|
  }

  lemma {:induction false} OffsetOfPrefix(items: seq<string>, sep: string, n: nat, k: nat)
    requires k <= n <= |items|
    ensures Offset(items[..n], sep, k) == Offset(items, sep, k)
  {
    if k > 0 {
      OffsetOfPrefix(items, sep, n, k - 1);
    }
  }

  lemma {:induction false} OffsetIsLengthBefore(items: seq<string>, sep: string, k: nat)
    requires k <= |items|
    ensures Offset(items, sep, k) == TotalLength(items[..k]) + k * |sep|
  {
    if k > 0 {
      OffsetIsLengthBefore(items, sep, k - 1);
      assert items[..k][..k - 1] == items[..k - 1];
    }
  }

  /** The joined string ends where its last item ends. */
  lemma {:induction false} JoinEnd(items: seq<string>, sep: string)
    requires |items| >= 1
    ensures |Join(items, sep)| == Offset(items, sep, |items| - 1) + |items[|items| - 1]|
  {
    var n := |items|;
    if n >= 2 {
      var init := items[..n - 1];
      JoinEnd(init, sep);
      OffsetOfPrefix(items, sep, n - 1, n - 2);
    }
  }

  /** Joined length: the items' total length plus one separator per neighbouring pair. */
  lemma JoinLength(items: seq<string>, sep: string)
    requires |items| >= 1
    ensures |Join(items, sep)| == TotalLength(items) + (|items| - 1) * |sep|
  {
    var n := |items|;
    JoinEnd(items, sep);
    OffsetIsLengthBefore(items, sep, n - 1);
    assert items[..n] == items;
  }

  /** The joined string is the joined prefix, a separator and the last item; the last item starts at its offset. */
  lemma JoinLast(items: seq<string>, sep: string)
    requires |items| >= 2
    ensures Join(items, sep) == Join(items[..|items| - 1], sep) + sep + items[|items| - 1]
    ensures |Join(items[..|items| - 1], sep)| + |sep| == Offset(items, sep, |items| - 1)
  {
    var n := |items|;
    var init := items[..n - 1];
    JoinEnd(init, sep);
    OffsetOfPrefix(items, sep, n - 1, n - 2);
    assert Offset(init, sep, n - 2) + |init[n - 2]| + |sep| == Offset(items, sep, n - 1) by {
      assert init[n - 2] == items[n - 2];
    }
  }

  lemma ThreePartSlices(a: string, b: string, c: string, lo: nat, hi: nat)
    requires lo <= hi <= |a|
    ensures (a + b + c)[lo..hi] == a[lo..hi]
    ensures (a + b + c)[|a|..|a| + |b|] == b
    ensures (a + b + c)[|a| + |b|..] == c
  {
  }

  /**
   * Item `k` sits at `Offset(k)` in the joined string, and a separator sits
   * between it and item `k + 1`.
   */
  lemma {:induction false} JoinPieces(items: seq<string>, sep: string, k: nat)
    requires k < |items|
    ensures Offset(items, sep, k) + |items[k]| + (if k + 1 < |items| then |sep| else 0) <= |Join(items, sep)|
    ensures Join(items, sep)[Offset(items, sep, k)..Offset(items, sep, k) + |items[k]|] == items[k]
    ensures k + 1 < |items| ==>
      Join(items, sep)[Offset(items, sep, k) + |items[k]|..Offset(items, sep, k + 1)] == sep
  {
    var n := |items|;
    if n >= 2 {
      var init := items[..n - 1];
      var j := Join(init, sep);
      JoinLast(items, sep);
      if k == n - 1 {
        ThreePartSlices(j, sep, items[n - 1], 0, 0);
      } else {
        JoinPieces(init, sep, k);
        OffsetOfPrefix(items, sep, n - 1, k);
        assert init[k] == items[k];
        var lo := Offset(items, sep, k);
        ThreePartSlices(j, sep, items[n - 1], lo, lo + |items[k]|);
        if k + 1 < n - 1 {
          OffsetOfPrefix(items, sep, n - 1, k + 1);
          ThreePartSlices(j, sep, items[n - 1], lo + |items[k]|, Offset(items, sep, k + 1));
        } else {
          assert lo + |items[k]| == |j|;
        }
      }
    }
  }

  // ---------------------------------------------------------------------------
  // The span events array and the entity.
  // ---------------------------------------------------------------------------

  /** How one span event is rendered into the array. */
  type EventRenderer = SpanEvent -> string

  /** The source's template: the name pasted between quotes as it is. */
  function AsWrittenRenderer(encode: JsonEncoder): (render: EventRenderer)
    ensures forall e :: render(e) == SerializeEventAsWritten(e, encode)
  {
    e => SerializeEventAsWritten(e, encode)
  }

  /** The corrected template: the name escaped. */
  function EscapingRenderer(encode: JsonEncoder): (render: EventRenderer)
    ensures forall e :: render(e) == SerializeEvent(e, encode)
  {
    e => SerializeEvent(e, encode)
  }

  /** Each event rendered, in list order. */
  function SerializeAll(events: seq<SpanEvent>, render: EventRenderer): (r: seq<string>)
    ensures |r| == |events|
    ensures forall k | 0 <= k < |events| :: r[k] == render(events[k])
  {
    seq(|events|, k requires 0 <= k < |events| => render(events[k]))
  }

  /** The events as a JSON array: `[`, the rendered events joined by `,`, then `]`. */
  function SerializeSpanEvents(events: seq<SpanEvent>, render: EventRenderer): (s: string)
    ensures |s| >= 2 && s[0] == '[' && s[|s| - 1] == ']'
    ensures events == [] ==> s == "[]"
  {
    "[" + Join(SerializeAll(events, render), ",") + "]"
  }

  /** The array's length: two brackets, the rendered events and one comma between each pair. */
  lemma SpanEventsLength(events: seq<SpanEvent>, render: EventRenderer)
    requires |events| >= 1
    ensures |SerializeSpanEvents(events, render)|
         == 2 + TotalLength(SerializeAll(events, render)) + (|events| - 1)
  {
    JoinLength(SerializeAll(events, render), ",");
  }

  /** Where event `k` starts in the rendered array. */
  function EventStart(events: seq<SpanEvent>, render: EventRenderer, k: nat): nat
    requires k <= |events|
  {
    1 + Offset(SerializeAll(events, render), ",", k)
  }

  /** `part` appears in `whole` starting at index `i`. */
  predicate OccursAt(whole: string, i: nat, part: string) {
    i + |part| <= |whole| && whole[i..i + |part|] == part
  }

  lemma SliceOfBracketed(j: string, lo: nat, hi: nat)
    requires lo <= hi <= |j|
    ensures ("[" + j + "]")[1 + lo..1 + hi] == j[lo..hi]
  {
  }

  /** Item `k` of a bracketed, joined list sits one place after its offset. */
  lemma BracketedPiece(items: seq<string>, sep: string, k: nat)
    requires k < |items|
    ensures OccursAt("[" + Join(items, sep) + "]", 1 + Offset(items, sep, k), items[k])
  {
    var j := Join(items, sep);
    var lo := Offset(items, sep, k);
    JoinPieces(items, sep, k);
    SliceOfBracketed(j, lo, lo + |items[k]|);
  }

  /** Event `k` appears, rendered, right after the opening bracket and the events before it. */
  lemma SpanEventAt(events: seq<SpanEvent>, render: EventRenderer, k: nat)
    requires k < |events|
    ensures OccursAt(SerializeSpanEvents(events, render), EventStart(events, render, k), render(events[k]))
  {
    var items := SerializeAll(events, render);
    assert items[k] == render(events[k]);
    PieceOccurs(SerializeSpanEvents(events, render), EventStart(events, render, k), render(events[k]), items, k);
  }

  lemma PieceOccurs(whole: string, lo: nat, r: string, items: seq<string>, k: nat)
    requires k < |items| && items[k] == r
    requires whole == "[" + Join(items, ",") + "]" && lo == 1 + Offset(items, ",", k)
    ensures OccursAt(whole, lo, r)
  {
    BracketedPiece(items, ",", k);
  }

  /** A rendered event found anywhere in a text can be decoded from its position. */
  lemma DecodeWithin(s: string, i: nat, e: SpanEvent, encode: JsonEncoder)
    requires OccursAt(s, i, SerializeEvent(e, encode))
    ensures DecodeEventHead(s[i..]) == Some((e.name, e.timestamp))
  {
    var r := SerializeEvent(e, encode);
    var after := s[i + |r|..];
    assert s[i..] == r + after;
    EventHeadRoundTrip(e, encode, after);
  }

  /**
   * With the escaping renderer, the name and timestamp of every event in the
   * array can be read back from where its rendering starts, whatever the name.
   */
  lemma SpanEventDecodable(events: seq<SpanEvent>, encode: JsonEncoder, k: nat)
    requires k < |events|
    ensures var render := EscapingRenderer(encode);
      EventStart(events, render, k) <= |SerializeSpanEvents(events, render)|
      && DecodeEventHead(SerializeSpanEvents(events, render)[EventStart(events, render, k)..])
         == Some((events[k].name, events[k].timestamp))
  {
    var render := EscapingRenderer(encode);
    SpanEventAt(events, render, k);
    DecodeWithin(SerializeSpanEvents(events, render), EventStart(events, render, k), events[k], encode);
  }

  /**
   * With the source's renderer, an event whose name has no quote or backslash
   * can be read back from where its rendering starts in the array.
   */
  lemma PlainSpanEventDecodable(events: seq<SpanEvent>, encode: JsonEncoder, k: nat)
    requires k < |events|
    requires forall i | 0 <= i < |events[k].name| :: !NeedsEscape(events[k].name[i])
    ensures var render := AsWrittenRenderer(encode);
      EventStart(events, render, k) <= |SerializeSpanEvents(events, render)|
      && DecodeEventHead(SerializeSpanEvents(events, render)[EventStart(events, render, k)..])
         == Some((events[k].name, events[k].timestamp))
  {
    var render := AsWrittenRenderer(encode);
    SpanEventAt(events, render, k);
    PlainNameRendersVerbatim(events[k], encode);
    DecodeWithin(SerializeSpanEvents(events, render), EventStart(events, render, k), events[k], encode);
  }

  /**
   * With the source's renderer, the array holding one event named `a"b` does not
   * give that name back from where the event starts.
   */
  lemma QuotedNameBreaksArray(encode: JsonEncoder)
    ensures var render := AsWrittenRenderer(encode);
      var events := [SpanEvent("a\"b", 0, map[])];
      EventStart(events, render, 0) <= |SerializeSpanEvents(events, render)|
      && DecodeEventHead(SerializeSpanEvents(events, render)[EventStart(events, render, 0)..]) != Some(("a\"b", 0))
  {
    var render := AsWrittenRenderer(encode);
    var e := SpanEvent("a\"b", 0, map[]);
    var events := [e];
    var whole := SerializeSpanEvents(events, render);
    SpanEventAt(events, render, 0);
    var r := SerializeEventAsWritten(e, encode);
    assert whole[1..] == r + whole[1 + |r|..];
    QuotedNameBreaksRendering(encode, whole[1 + |r|..]);
  }

  /**
   * `toSpanEntity`: the identity, timing, status and end flag are copied; the
   * events become the JSON array, each by the source's template with the name
   * unescaped, and the attributes go through the encoder.
   */
  function ToSpanEntity(d: SpanData, encode: JsonEncoder): (e: SpanEntity)
    ensures e.name == d.name && e.spanId == d.spanId && e.traceId == d.traceId
    ensures e.parentId == d.parentId && e.sessionId == d.sessionId
    ensures e.startTime == d.startTime && e.endTime == d.endTime && e.duration == d.duration
    ensures e.status == d.status && e.hasEnded == d.hasEnded
    ensures e.serializedSpanEvents == SerializeSpanEvents(d.spanEvents, AsWrittenRenderer(encode))
    ensures e.serializedAttributes == encode(d.attributes)
  {
    SpanEntity(
      name := d.name,
      spanId := d.spanId,
      startTime := d.startTime,
      sessionId := d.sessionId,
      duration := d.duration,
      status := d.status,
      parentId := d.parentId,
      endTime := d.endTime,
      traceId := d.traceId,
      serializedSpanEvents := SerializeSpanEvents(d.spanEvents, AsWrittenRenderer(encode)),
      serializedAttributes := encode(d.attributes),
      hasEnded := d.hasEnded
    )
  }
}

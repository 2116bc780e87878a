/** The agent's journal lines as encoding/json writes them, field by field, and
    that they satisfy the laws the journal relies on. */
module JsonLines {
  import opened Common
  import opened Journal

  const QUOTE: byte := 34
  const OPEN: byte := 123
  const CLOSE: byte := 125

  // {"command_id":"   ","status":"   ","recorded_at":"   "}
  const HEAD: seq<byte> := [123, 34, 99, 111, 109, 109, 97, 110, 100, 95, 105, 100, 34, 58, 34]
  const STATUS_KEY: seq<byte> := [34, 44, 34, 115, 116, 97, 116, 117, 115, 34, 58, 34]
  const TIME_KEY: seq<byte> := [34, 44, 34, 114, 101, 99, 111, 114, 100, 101, 100, 95, 97, 116, 34, 58, 34]
  const TAIL: seq<byte> := [34, 125]

  /** received, running, completed; a reader may meet any other word. */
  function Word(s: Status): seq<byte> {
    match s
    case Received => [114, 101, 99, 101, 105, 118, 101, 100]
    case Running => [114, 117, 110, 110, 105, 110, 103]
    case Completed => [99, 111, 109, 112, 108, 101, 116, 101, 100]
    case Unknown => [63]
  }

  function Decimal(n: nat): (s: seq<byte>)
    ensures s != [] && forall i | 0 <= i < |s| :: 48 <= s[i] <= 57
  {
    if n < 10 then [(48 + n) as byte] else Decimal(n / 10) + [(48 + n % 10) as byte]
  }

  function Number(s: seq<byte>): int {
    if s == [] then 0 else Number(s[..|s| - 1]) * 10 + (s[|s| - 1] as int - 48)
  }

  lemma {:induction false} NumberOfDecimal(n: nat)
    ensures Number(Decimal(n)) == n
  {
    if n < 10 {
      assert Decimal(n)[..0] == [];
    } else {
      NumberOfDecimal(n / 10);
      assert Decimal(n)[..|Decimal(n)| - 1] == Decimal(n / 10);
    }
  }

  /** From the time on; from the status on; and the whole entry, identifiers and
      times being numerals here. */
  function TimeOn(e: Entry): (s: seq<byte>)
    ensures s != [] && s[0] == QUOTE
  {
    TIME_KEY + (Decimal(e.recordedAt) + TAIL)
  }

  function StatusOn(e: Entry): (s: seq<byte>)
    ensures s != [] && s[0] == QUOTE
  {
    STATUS_KEY + (Word(e.status) + TimeOn(e))
  }

  function Json(e: Entry): (s: seq<byte>)
    ensures s != [] && s[0] == OPEN
  {
    HEAD + (Decimal(e.id) + StatusOn(e))
  }

  lemma UpToQuote(a: seq<byte>, x: seq<byte>, b: seq<byte>, y: seq<byte>)
    requires QUOTE !in a && QUOTE !in b && x != [] && y != [] && x[0] == y[0] == QUOTE && a + x == b + y
    ensures a == b && x == y
  {
    assert (a + x)[|a|] == QUOTE && (b + y)[|b|] == QUOTE;
    assert a == (a + x)[..|a|] && b == (b + y)[..|b|];
    assert x == (a + x)[|a|..] && y == (b + y)[|b|..];
  }

  lemma Strip(k: seq<byte>, x: seq<byte>, y: seq<byte>)
    requires k + x == k + y
    ensures x == y
  {
    assert x == (k + x)[|k|..] && y == (k + y)[|k|..];
  }

  lemma TimeOnInjective(d: Entry, e: Entry)
    requires TimeOn(d) == TimeOn(e)
    ensures d.recordedAt == e.recordedAt
  {
    Strip(TIME_KEY, Decimal(d.recordedAt) + TAIL, Decimal(e.recordedAt) + TAIL);
    UpToQuote(Decimal(d.recordedAt), TAIL, Decimal(e.recordedAt), TAIL);
    NumberOfDecimal(d.recordedAt);
    NumberOfDecimal(e.recordedAt);
  }

  lemma WordInjective(s: Status, r: Status)
    requires Word(s) == Word(r)
    ensures s == r
  {
    assert |Word(s)| == |Word(r)|;
  }

  lemma StatusOnInjective(d: Entry, e: Entry)
    requires StatusOn(d) == StatusOn(e)
    ensures d.status == e.status && d.recordedAt == e.recordedAt
  {
    Strip(STATUS_KEY, Word(d.status) + TimeOn(d), Word(e.status) + TimeOn(e));
    UpToQuote(Word(d.status), TimeOn(d), Word(e.status), TimeOn(e));
    WordInjective(d.status, e.status);
    TimeOnInjective(d, e);
  }

  lemma JsonInjective(d: Entry, e: Entry)
    requires Json(d) == Json(e)
    ensures d == e
  {
    Strip(HEAD, Decimal(d.id) + StatusOn(d), Decimal(e.id) + StatusOn(e));
    UpToQuote(Decimal(d.id), StatusOn(d), Decimal(e.id), StatusOn(e));
    NumberOfDecimal(d.id);
    NumberOfDecimal(e.id);
    StatusOnInjective(d, e);
  }

  /** Braces stand at the two ends only, and there is no control character. */
  lemma Shape(e: Entry)
    ensures var s := Json(e);
            && (forall i | 0 < i < |s| :: s[i] != OPEN)
            && s[|s| - 1] == CLOSE && (forall i | 0 <= i < |s| - 1 :: s[i] != CLOSE)
            && NEWLINE !in s && CARRIAGE_RETURN !in s
  {
    TimeShape(e);
    StatusShape(e);
  }

  predicate Inner(s: seq<byte>) {
    && s != [] && s[|s| - 1] == CLOSE
    && forall i | 0 <= i < |s| - 1 :: 32 <= s[i] < OPEN
  }

  lemma TimeShape(e: Entry)
    ensures Inner(TimeOn(e))
  {
  }

  lemma StatusShape(e: Entry)
    ensures Inner(StatusOn(e))
  {
    TimeShape(e);
  }

  /** A reader that accepts the agent's lines. */
  ghost function Parse(s: seq<byte>): (r: Option<Entry>)
    ensures r.Some? ==> Json(r.value) == s
    ensures r.None? ==> forall e :: Json(e) != s
  {
    if e :| Json(e) == s then Some(e) else None
  }

  ghost function JsonCodec(): Codec {
    Codec(e => Json(e), s => Parse(s))
  }

  lemma RoundTrip(e: Entry)
    ensures Parse(Json(e)) == Some(e)
  {
    assert Parse(Json(e)).Some?;
    JsonInjective(Parse(Json(e)).value, e);
  }

  /** A proper prefix has lost its closing brace. */
  lemma PrefixIsNone(e: Entry, n: nat)
    requires 0 < n < |Json(e)|
    ensures Parse(Json(e)[..n]) == None
  {
    Shape(e);
    assert Json(e)[..n][n - 1] != CLOSE;
    var r := Parse(Json(e)[..n]);
    if r.Some? {
      Shape(r.value);
      assert false;
    }
  }

  lemma {:induction false} PiecesOpen(c: Codec, s: seq<byte>, k: nat)
    requires forall e {:trigger c.marshal(e)} :: c.marshal(e) != [] && c.marshal(e)[0] == OPEN
    requires k >= 1 && Pieces(c, s, k)
    ensures s != [] && (k >= 2 ==> exists i :: 0 < i < |s| && s[i] == OPEN)
    decreases k
  {
    var t, e, n: nat :| 0 < n <= |c.marshal(e)| && Pieces(c, t, k - 1) && s == t + c.marshal(e)[..n];
    assert s[|t|] == OPEN;
    if k < 2 {
    } else {
      PiecesOpen(c, t, k - 1);
    }
  }

  /** Pieces glued together have a second opening brace. */
  lemma GluedIsNone(s: seq<byte>, k: nat)
    requires k >= 2 && Pieces(JsonCodec(), s, k)
    ensures Parse(s) == None
  {
    PiecesOpen(JsonCodec(), s, k);
    var r := Parse(s);
    if r.Some? {
      Shape(r.value);
      assert false;
    }
  }

  /** The agent's own lines satisfy every law the journal's theorems ask for. */
  lemma JsonIsLawful()
    ensures Lawful(JsonCodec())
  {
    var c := JsonCodec();
    forall e: Entry
      ensures c.marshal(e) != [] && c.unmarshal(c.marshal(e)) == Some(e)
              && NEWLINE !in c.marshal(e) && CARRIAGE_RETURN !in c.marshal(e)
    {
      RoundTrip(e);
      Shape(e);
    }
    forall e: Entry, n: nat {:trigger c.marshal(e)[..n]} | 0 < n < |c.marshal(e)|
      ensures c.unmarshal(c.marshal(e)[..n]) == None
    {
      PrefixIsNone(e, n);
    }
    forall s: seq<byte>, k: nat {:trigger Pieces(c, s, k)} | k >= 2 && Pieces(c, s, k)
      ensures c.unmarshal(s) == None
    {
      GluedIsNone(s, k);
    }
  }
}

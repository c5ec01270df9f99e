/** Choosing how many outbox rows fit into one request. The loop never measures the
    whole request; it keeps a running byte count and is proved to choose as if it did. */
module BatchEncoding {
  import opened Basics
  import opened DataModel

  const MAX_BODY_BYTES: nat := 1048576

  /** A row of the outbox with the JSON text of its record. */
  datatype Row = Row(sequence: nat, record: string)

  /** The request fields that are known before any row is chosen. */
  datatype Envelope = Envelope(databaseId: string, stream: StreamId, id: BatchId, fromSequence: nat)

  datatype Encoded = Encoded(count: nat, body: string)

  datatype EncodeError = OutboxGap | RecordExceedsBatchLimit | Undecodable

  // ----- the request text -----

  function Decimal(n: nat): (text: string)
    ensures |text| >= 1
  {
    if n < 10 then [Digit(n)] else Decimal(n / 10) + [Digit(n % 10)]
  }

  function Digit(d: nat): char
    requires d < 10
  {
    '0' + d as char
  }

  function EntryText(row: Row): string
  {
    "{\"sequence\":" + Decimal(row.sequence) + ",\"record\":" + row.record + "}"
  }

  function Texts(rows: seq<Row>): seq<string>
  {
    seq(|rows|, i requires 0 <= i < |rows| => EntryText(rows[i]))
  }

  function Joined(texts: seq<string>): string
  {
    if texts == [] then ""
    else if |texts| == 1 then texts[0]
    else Joined(texts[..|texts| - 1]) + "," + texts[|texts| - 1]
  }

  function Wire(e: Envelope, toSequence: nat, texts: seq<string>): string
  {
    "{\"protocolVersion\":3,\"extractorVersion\":1,\"databaseId\":\"" + e.databaseId +
    "\",\"datasetId\":\"default\",\"streamId\":\"" + e.stream + "\",\"batchId\":\"" + e.id +
    "\",\"fromSequence\":" + Decimal(e.fromSequence) + ",\"toSequence\":" + Decimal(toSequence) +
    ",\"entries\":[" + Joined(texts) + "]}"
  }

  /** The request that carries exactly these rows. */
  function Request(e: Envelope, rows: seq<Row>): string
    requires rows != []
  {
    Wire(e, rows[|rows| - 1].sequence, Texts(rows))
  }

  // ----- what is asked for -----

  predicate Contiguous(e: Envelope, rows: seq<Row>)
  {
    forall i :: 0 <= i < |rows| ==> rows[i].sequence == e.fromSequence + i
  }

  predicate Sendable(e: Envelope, rows: seq<Row>)
  {
    rows != [] && Contiguous(e, rows) && |Request(e, rows)| <= MAX_BODY_BYTES
  }

  predicate ValidId(id: string)
  {
    id != "" && '/' !in id && ' ' !in id
  }

  /** The server's own decoder, which the finished request is checked against. */
  predicate Decodable(e: Envelope, count: nat)
  {
    && ValidId(e.databaseId) && ValidId(e.stream) && ValidId(e.id)
    && 1 <= count <= MAX_ENTRIES
    && 0 < e.fromSequence && e.fromSequence + count - 1 <= SAFE_INTEGER
  }

  /** Takes rows one by one while the request built from all of them fits. */
  function Take(e: Envelope, rows: seq<Row>, n: nat): (r: Result<nat, EncodeError>)
    requires n <= |rows|
    ensures r.Ok? ==> n <= r.value <= |rows|
    decreases |rows| - n
  {
    if n == |rows| then Ok(n)
    else if rows[n].sequence != e.fromSequence + n then Err(OutboxGap)
    else if |Request(e, rows[..n + 1])| > MAX_BODY_BYTES then
      if n == 0 then Err(RecordExceedsBatchLimit) else Ok(n)
    else Take(e, rows, n + 1)
  }

  function Encode(e: Envelope, rows: seq<Row>): Result<Encoded, EncodeError>
  {
    match Take(e, rows[..Min(|rows|, MAX_ENTRIES)], 0)
    case Err(error) => Err(error)
    case Ok(n) =>
      if !Decodable(e, n) then Err(Undecodable) else Ok(Encoded(n, Request(e, rows[..n])))
  }

  // ----- the running count is the real length -----

  function SumLengths(texts: seq<string>): nat
  {
    if texts == [] then 0 else SumLengths(texts[..|texts| - 1]) + |texts[|texts| - 1]|
  }

  lemma {:induction false} JoinedLength(texts: seq<string>)
    ensures |Joined(texts)| == SumLengths(texts) + (if texts == [] then 0 else |texts| - 1)
  {
    if |texts| == 1 {
      assert texts[..0] == [];
      assert SumLengths(texts[..0]) == 0;
    } else if |texts| > 1 {
      JoinedLength(texts[..|texts| - 1]);
    }
  }

  lemma TextsOfExtended(rows: seq<Row>, row: Row)
    ensures Texts(rows + [row]) == Texts(rows) + [EntryText(row)]
  {
  }

  /** The envelope around no entries, the entries, and one comma before each further entry. */
  lemma RequestLength(e: Envelope, rows: seq<Row>, row: Row)
    ensures |Request(e, rows + [row])| ==
            |Wire(e, row.sequence, [])| + SumLengths(Texts(rows)) + |EntryText(row)| + |rows|
  {
    TextsOfExtended(rows, row);
    var texts := Texts(rows) + [EntryText(row)];
    JoinedLength(texts);
    assert texts[..|texts| - 1] == Texts(rows);
    assert (rows + [row])[|rows|] == row;
  }

  lemma {:induction false} DecimalGrows(m: nat, n: nat)
    requires m <= n
    ensures |Decimal(m)| <= |Decimal(n)|
  {
    if m >= 10 {
      DecimalGrows(m / 10, n / 10);
    }
  }

  /** One more row never shortens the request, however the sequence digits change. */
  lemma LongerIsLarger(e: Envelope, rows: seq<Row>, n: nat)
    requires 1 <= n < |rows| && Contiguous(e, rows)
    ensures |Request(e, rows[..n])| < |Request(e, rows[..n + 1])|
  {
    var shorter := rows[..n - 1];
    assert rows[..n] == shorter + [rows[n - 1]];
    assert rows[..n + 1] == rows[..n] + [rows[n]];
    RequestLength(e, shorter, rows[n - 1]);
    RequestLength(e, rows[..n], rows[n]);
    TextsOfExtended(shorter, rows[n - 1]);
    var texts := Texts(rows[..n]);
    assert texts[..n - 1] == Texts(shorter);
    DecimalGrows(rows[n - 1].sequence, rows[n].sequence);
  }

  lemma {:induction false} MuchLongerIsLarger(e: Envelope, rows: seq<Row>, n: nat, m: nat)
    requires 1 <= n < m <= |rows| && Contiguous(e, rows)
    ensures |Request(e, rows[..n])| < |Request(e, rows[..m])|
    decreases m
  {
    hide Request, Contiguous;
    LongerIsLarger(e, rows, m - 1);
    if n < m - 1 {
      MuchLongerIsLarger(e, rows, n, m - 1);
    }
  }

  // ----- the chosen prefix is the longest -----

  lemma {:induction false} TakeIsLongest(e: Envelope, rows: seq<Row>, n: nat)
    requires n <= |rows| && (n == 0 || Sendable(e, rows[..n]))
    ensures match Take(e, rows, n)
            case Ok(k) =>
              && n <= k <= |rows| && (k == 0 || Sendable(e, rows[..k]))
              && (k < |rows| ==> k > 0 && rows[k].sequence == e.fromSequence + k && !Sendable(e, rows[..k + 1]))
            case Err(OutboxGap) =>
              exists g :: n <= g < |rows| && rows[g].sequence != e.fromSequence + g && (g == 0 || Sendable(e, rows[..g]))
            case Err(RecordExceedsBatchLimit) =>
              n == 0 && rows != [] && Contiguous(e, rows[..1]) && !Sendable(e, rows[..1])
            case Err(Undecodable) => false
    decreases |rows| - n
  {
    hide Request;
    if n < |rows| && rows[n].sequence == e.fromSequence + n && |Request(e, rows[..n + 1])| <= MAX_BODY_BYTES {
      assert Contiguous(e, rows[..n + 1]) by {
        assert forall i :: 0 <= i < n ==> rows[..n + 1][i] == rows[..n][i];
      }
      TakeIsLongest(e, rows, n + 1);
    }
  }

  lemma TooManyDoNotFit(e: Envelope, rows: seq<Row>, k: nat, m: nat)
    requires 0 < k < m <= |rows| && Contiguous(e, rows[..k]) && rows[k].sequence == e.fromSequence + k
    requires !Sendable(e, rows[..k + 1])
    ensures !Sendable(e, rows[..m])
  {
    if Contiguous(e, rows[..m]) && m > k + 1 {
      var some := rows[..m];
      assert some[..k + 1] == rows[..k + 1] && some[..m] == some;
      MuchLongerIsLarger(e, some, k + 1, m);
      assert forall i :: 0 <= i < k + 1 ==> rows[..k + 1][i] == some[i];
    }
  }

  /** An encoded request is exactly the request of the longest non-empty contiguous
      prefix of at most 256 rows that fits, or the error that stopped the loop. */
  lemma EncodesLongestPrefix(e: Envelope, rows: seq<Row>)
    ensures match Encode(e, rows)
            case Ok(Encoded(n, body)) =>
              && 1 <= n <= Min(|rows|, MAX_ENTRIES) && Sendable(e, rows[..n]) && body == Request(e, rows[..n])
              && (forall m :: n < m <= Min(|rows|, MAX_ENTRIES) ==> !Sendable(e, rows[..m]))
              && Decodable(e, n)
            case Err(OutboxGap) =>
              exists g :: 0 <= g < Min(|rows|, MAX_ENTRIES) && rows[g].sequence != e.fromSequence + g &&
                          (g == 0 || Sendable(e, rows[..g]))
            case Err(RecordExceedsBatchLimit) =>
              rows != [] && rows[0].sequence == e.fromSequence && !Sendable(e, rows[..1])
            case Err(Undecodable) =>
              rows == [] || exists n :: 1 <= n <= Min(|rows|, MAX_ENTRIES) && Sendable(e, rows[..n]) && !Decodable(e, n)
  {
    hide Request;
    var limit := Min(|rows|, MAX_ENTRIES);
    var some := rows[..limit];
    TakeIsLongest(e, some, 0);
    assert forall i :: 0 <= i <= limit ==> some[..i] == rows[..i];
    match Take(e, some, 0)
    case Err(_) =>
    case Ok(k) =>
      if 0 < k < limit {
        forall m | k < m <= limit
          ensures !Sendable(e, rows[..m])
        {
          TooManyDoNotFit(e, rows, k, m);
        }
      }
  }

  // ----- the loop -----

  /** Accounts for the envelope and each encoded entry once. */
  method EncodeBatchPrefix(e: Envelope, rows: seq<Row>) returns (r: Result<Encoded, EncodeError>)
    ensures r == Encode(e, rows)
  {
    hide Wire, Joined, EntryText;
    var entries := rows;
    if |entries| > MAX_ENTRIES {
      entries := entries[..MAX_ENTRIES];
    }
    assert entries == rows[..Min(|rows|, MAX_ENTRIES)];
    var encoded: seq<string> := [];
    var entriesBytes := 0;
    var toSequence := 0;
    var n := 0;
    while n < |entries|
      invariant 0 <= n <= |entries|
      invariant encoded == Texts(entries[..n]) && entriesBytes == SumLengths(encoded)
      invariant n > 0 ==> toSequence == entries[n - 1].sequence
      invariant Take(e, entries, 0) == Take(e, entries, n)
    {
      var entry := entries[n];
      if entry.sequence != e.fromSequence + n {
        return Err(OutboxGap);
      }
      var text := EntryText(entry);
      var envelope := Wire(e, entry.sequence, []);
      var candidateBytes := |envelope| + entriesBytes + |text| + |encoded|;
      assert entries[..n + 1] == entries[..n] + [entry];
      RequestLength(e, entries[..n], entry);
      if candidateBytes > MAX_BODY_BYTES {
        if n == 0 {
          return Err(RecordExceedsBatchLimit);
        }
        break;
      }
      TextsOfExtended(entries[..n], entry);
      assert entries[..n + 1] != [] && entries[..n + 1][n] == entry;
      assert (encoded + [text])[..n] == encoded;
      encoded := encoded + [text];
      toSequence := entry.sequence;
      entriesBytes := entriesBytes + |text|;
      n := n + 1;
    }
    assert entries[..n] == rows[..n];
    if !Decodable(e, n) {
      return Err(Undecodable);
    }
    r := Ok(Encoded(n, Wire(e, toSequence, encoded)));
  }
}

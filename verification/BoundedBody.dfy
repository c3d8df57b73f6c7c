/** A request body read under a cap. */
module BoundedBody {
  import opened Wrappers
  import opened Numerals
  import opened Text

  type Byte = n: int | 0 <= n < 256

  /** The stream's chunks in order, and whether it ends or fails after them. */
  datatype Stream = Stream(chunks: seq<seq<Byte>>, fails: bool)

  datatype Refusal = TooLarge | Unreadable

  function Concat(chunks: seq<seq<Byte>>): seq<Byte> {
    if chunks == [] then [] else chunks[0] + Concat(chunks[1..])
  }

  /** A `Content-Length` that is a whole number of digits; any other value says nothing. */
  function Declared(header: Option<string>): Option<nat> {
    match header case None => None case Some(text) => Value(Trim(text), 10)
  }

  /** A length is declared exactly by decimal digits between white space, and is the number they print. */
  lemma {:induction false} DeclaredExactlyWhen(text: string, n: nat)
    ensures Declared(Some(text)).Some? <==> Trim(text) != "" && forall c | c in Trim(text) :: '0' <= c <= '9'
    ensures Trim(text) == Digits(n, 10) ==> Declared(Some(text)) == Some(n)
    ensures Declared(None) == None
  {
    hide Trim, Value;
    DecimalExactlyWhen(Trim(text));
    ValueOfDigits(n, 10);
  }

  /** The answer as one function of the bytes delivered and how the delivery ends, chunks not considered. */
  function Answer(header: Option<string>, body: Option<Stream>, maxBytes: nat): Result<seq<Byte>, Refusal> {
    if Declared(header).Some? && Declared(header).value > maxBytes then Err(TooLarge)
    else if body.None? then Ok([])
    else if |Concat(body.value.chunks)| > maxBytes then Err(TooLarge)
    else if body.value.fails then Err(Unreadable)
    else Ok(Concat(body.value.chunks))
  }

  lemma {:induction false} ConcatAppend(x: seq<seq<Byte>>, y: seq<seq<Byte>>)
    ensures Concat(x + y) == Concat(x) + Concat(y)
  {
    if x == [] {
      assert x + y == y;
    } else {
      assert (x + y)[0] == x[0] && (x + y)[1..] == x[1..] + y;
      ConcatAppend(x[1..], y);
      assert x[0] + (Concat(x[1..]) + Concat(y)) == x[0] + Concat(x[1..]) + Concat(y);
    }
  }

  lemma ConcatStep(chunks: seq<seq<Byte>>, k: nat)
    requires k < |chunks|
    ensures Concat(chunks[..k + 1]) == Concat(chunks[..k]) + chunks[k]
    ensures |Concat(chunks[..k + 1])| <= |Concat(chunks)|
  {
    assert chunks[..k + 1] == chunks[..k] + [chunks[k]];
    ConcatAppend(chunks[..k], [chunks[k]]);
    assert Concat([chunks[k]]) == chunks[k] + [];
    assert chunks == chunks[..k + 1] + chunks[k + 1..];
    ConcatAppend(chunks[..k + 1], chunks[k + 1..]);
  }

  /** The first `k` chunks fit, so another is asked for. */
  predicate Within(chunks: seq<seq<Byte>>, k: nat, maxBytes: nat)
    requires k <= |chunks|
  {
    |Concat(chunks[..k])| <= maxBytes
  }

  function Longest(chunks: seq<seq<Byte>>): nat {
    if chunks == [] then 0
    else if |chunks[0]| >= Longest(chunks[1..]) then |chunks[0]|
    else Longest(chunks[1..])
  }

  lemma {:induction false} LongestIs(chunks: seq<seq<Byte>>, k: nat)
    requires k < |chunks|
    ensures |chunks[k]| <= Longest(chunks)
  {
    if k > 0 {
      LongestIs(chunks[1..], k - 1);
    }
  }

  // ---------------------------------------------------------------------------
  //  How much is read, and how much is held.
  // ---------------------------------------------------------------------------

  predicate DeclaredTooLarge(header: Option<string>, maxBytes: nat) {
    Declared(header).Some? && Declared(header).value > maxBytes
  }

  /** How many chunks are asked for: up to the one that passes the cap. */
  function Reach(chunks: seq<seq<Byte>>, maxBytes: nat): (n: nat)
    ensures n <= |chunks|
  {
    if chunks == [] then 0
    else if |chunks[0]| > maxBytes then 1
    else 1 + Reach(chunks[1..], maxBytes - |chunks[0]|)
  }

  /** The most bytes held at once: the chunks read, and for an answer also the array they are copied into. */
  function Held(header: Option<string>, body: Stream, maxBytes: nat): nat {
    if DeclaredTooLarge(header, maxBytes) then 0
    else
      var read := |Concat(body.chunks[..Reach(body.chunks, maxBytes)])|;
      if Answer(header, Some(body), maxBytes).Ok? then read + read else read
  }

  lemma {:induction false} WithinTail(chunks: seq<seq<Byte>>, maxBytes: nat, k: nat)
    requires 0 < k <= |chunks| && |chunks[0]| <= maxBytes
    ensures Within(chunks, k, maxBytes) <==> Within(chunks[1..], k - 1, maxBytes - |chunks[0]|)
  {
    assert chunks[..k][0] == chunks[0] && chunks[..k][1..] == chunks[1..][..k - 1];
  }

  /** The chunks asked for are the ones before which all fit, up to the first that does not or the last. */
  lemma {:induction false} ReachIs(chunks: seq<seq<Byte>>, maxBytes: nat, n: nat)
    requires n <= |chunks| && (forall k | 0 <= k < n :: Within(chunks, k, maxBytes))
    requires n == |chunks| || !Within(chunks, n, maxBytes)
    ensures Reach(chunks, maxBytes) == n
  {
    if chunks != [] {
      assert chunks[..1] == [chunks[0]] && chunks[..0] == [];
      assert Concat([chunks[0]]) == chunks[0] + [];
      if |chunks[0]| > maxBytes {
        assert n > 1 ==> Within(chunks, 1, maxBytes);
      } else {
        assert n > 0;
        var rest, left := chunks[1..], maxBytes - |chunks[0]|;
        forall k | 0 <= k < n - 1 ensures Within(rest, k, left) {
          assert Within(chunks, k + 1, maxBytes);
          WithinTail(chunks, maxBytes, k + 1);
        }
        WithinTail(chunks, maxBytes, n);
        ReachIs(rest, left, n - 1);
      }
    }
  }

  /** What is read passes the cap exactly when the body does, by at most one chunk, and is otherwise all of it. */
  lemma {:induction false} ReadIs(chunks: seq<seq<Byte>>, maxBytes: nat)
    ensures var read := |Concat(chunks[..Reach(chunks, maxBytes)])|;
            && read <= maxBytes + Longest(chunks)
            && (read <= maxBytes <==> |Concat(chunks)| <= maxBytes)
            && (read <= maxBytes ==> read == |Concat(chunks)|)
  {
    if chunks != [] {
      var n := Reach(chunks, maxBytes);
      assert chunks[..n][0] == chunks[0] && chunks[..n][1..] == chunks[1..][..n - 1];
      LongestIs(chunks, 0);
      if |chunks[0]| <= maxBytes {
        ReadIs(chunks[1..], maxBytes - |chunks[0]|);
      } else {
        assert chunks[..1][1..] == [];
      }
    }
  }

  /** Never more than the cap and one chunk, or than twice the cap. */
  lemma {:induction false} HeldBound(header: Option<string>, body: Stream, maxBytes: nat)
    ensures Held(header, body, maxBytes) <= maxBytes + Longest(body.chunks)
       || Held(header, body, maxBytes) <= 2 * maxBytes
  {
    ReadIs(body.chunks, maxBytes);
  }

  /** Every refusal is within the cap and one chunk; an answer is exactly when twice its size is. */
  lemma {:induction false} CapAndChunkExactlyWhen(header: Option<string>, body: Stream, maxBytes: nat)
    ensures Held(header, body, maxBytes) <= maxBytes + Longest(body.chunks)
       <==> Answer(header, Some(body), maxBytes).Err? || 2 * |Concat(body.chunks)| <= maxBytes + Longest(body.chunks)
  {
    ReadIs(body.chunks, maxBytes);
  }

  function Drips(n: nat): seq<seq<Byte>> { if n == 0 then [] else [[0]] + Drips(n - 1) }

  lemma {:induction false} DripsAre(n: nat)
    ensures |Concat(Drips(n))| == n
    ensures Longest(Drips(n)) == if n == 0 then 0 else 1
  {
    if n > 0 {
      DripsAre(n - 1);
      assert Drips(n)[1..] == Drips(n - 1);
    }
  }

  /** A body of exactly the cap that comes byte by byte is held twice over: 20 bytes under a cap of 10, not 11. */
  lemma {:induction false} DripsHeldTwice(n: nat)
    requires n >= 2
    ensures Held(None, Stream(Drips(n), false), n) == 2 * n > n + Longest(Drips(n))
  {
    DripsAre(n);
    ReadIs(Drips(n), n);
  }

  /** Chunk by chunk until the end, the cap or a failure. `peak` is the most bytes ever held at once. */
  method ReadBoundedBody(header: Option<string>, body: Option<Stream>, maxBytes: nat)
    returns (answer: Result<seq<Byte>, Refusal>, peak: nat, pulled: nat)
    ensures answer == Answer(header, body, maxBytes)
    ensures body.None? ==> peak == 0 && pulled == 0
    ensures body.Some? ==>
              pulled <= |body.value.chunks| && forall k | 0 <= k < pulled :: Within(body.value.chunks, k, maxBytes)
    ensures body.Some? ==> peak == Held(header, body.value, maxBytes)
    ensures body.Some? ==>
              pulled == if DeclaredTooLarge(header, maxBytes) then 0 else Reach(body.value.chunks, maxBytes)
  {
    peak, pulled := 0, 0;
    var declared := Declared(header);
    if declared.Some? && declared.value > maxBytes {
      return Err(TooLarge), peak, pulled;
    }
    if body.None? {
      return Ok([]), peak, pulled;
    }
    var source := body.value.chunks;
    var chunks: seq<seq<Byte>> := [];
    var size := 0;
    while pulled < |source|
      invariant pulled <= |source| && chunks == source[..pulled]
      invariant size == peak == |Concat(chunks)| <= maxBytes
      invariant forall k | 0 <= k <= pulled :: Within(source, k, maxBytes)
    {
      var value := source[pulled];
      ConcatStep(source, pulled);
      size := size + |value|;
      pulled := pulled + 1;
      peak := size;
      if size > maxBytes {
        ReachIs(source, maxBytes, pulled);
        return Err(TooLarge), peak, pulled;
      }
      assert source[..pulled] == chunks + [value];
      chunks := chunks + [value];
    }
    assert source[..pulled] == source;
    ReachIs(source, maxBytes, pulled);
    if body.value.fails {
      return Err(Unreadable), peak, pulled;
    }
    var bytes := Fill(chunks, size);
    peak := size + bytes.Length;
    answer := Ok(bytes[..]);
  }

  /** One array of all the chunks' bytes, each set at the offset where the one before it ends. */
  method Fill(chunks: seq<seq<Byte>>, size: nat) returns (bytes: array<Byte>)
    requires size == |Concat(chunks)|
    ensures fresh(bytes) && bytes[..] == Concat(chunks)
  {
    bytes := new Byte[size](_ => 0);
    var offset := 0;
    for k := 0 to |chunks|
      invariant offset == |Concat(chunks[..k])| <= size
      invariant bytes[..offset] == Concat(chunks[..k])
    {
      ConcatStep(chunks, k);
      SetAt(bytes, chunks[k], offset);
      assert bytes[..offset + |chunks[k]|] == bytes[..offset] + bytes[offset..offset + |chunks[k]|];
      offset := offset + |chunks[k]|;
    }
    assert chunks[..|chunks|] == chunks;
    assert bytes[..offset] == bytes[..];
  }

  method SetAt(bytes: array<Byte>, chunk: seq<Byte>, offset: nat)
    requires offset + |chunk| <= bytes.Length
    modifies bytes
    ensures bytes[..offset] == old(bytes[..offset])
    ensures bytes[offset..offset + |chunk|] == chunk
    ensures bytes[offset + |chunk|..] == old(bytes[offset + |chunk|..])
  {
    for k := 0 to |chunk|
      invariant bytes[..offset] == old(bytes[..offset])
      invariant bytes[offset..offset + k] == chunk[..k]
      invariant bytes[offset + |chunk|..] == old(bytes[offset + |chunk|..])
    {
      bytes[offset + k] := chunk[k];
    }
    assert chunk[..|chunk|] == chunk;
  }

  /** However the same bytes are cut into chunks, the answer is the same. */
  lemma ChunksDoNotMatter(header: Option<string>, a: Stream, b: Stream, maxBytes: nat)
    requires Concat(a.chunks) == Concat(b.chunks) && a.fails == b.fails
    ensures Answer(header, Some(a), maxBytes) == Answer(header, Some(b), maxBytes)
  {
  }

  /** On a stream that does not fail, the bytes come back exactly when they fit. */
  lemma FitsExactlyWhen(body: Stream, maxBytes: nat)
    requires !body.fails
    ensures Answer(None, Some(body), maxBytes) == Ok(Concat(body.chunks)) <==> |Concat(body.chunks)| <= maxBytes
    ensures Answer(None, Some(body), maxBytes) == Err(TooLarge) <==> |Concat(body.chunks)| > maxBytes
  {
  }

  /**
    * A header makes a difference exactly when it declares more than the cap of a body the stream alone would not
    * refuse as too large: never an honest one of a stream that does not fail.
    */
  lemma HeaderMattersExactlyWhen(header: Option<string>, body: Stream, maxBytes: nat)
    ensures Answer(header, Some(body), maxBytes) != Answer(None, Some(body), maxBytes)
       <==> Declared(header).Some? && Declared(header).value > maxBytes && |Concat(body.chunks)| <= maxBytes
    ensures Declared(header) == Some(|Concat(body.chunks)|) ==>
              Answer(header, Some(body), maxBytes) == Answer(None, Some(body), maxBytes)
  {
  }
}

/**
 * Stanza reassembly: the static helpers of `KikConnection` (`parse_start_tag`,
 * `ends_with_tag`) and the reassembly rule of `data_received`, stated as a pure
 * transition on the connection's partial-stanza buffer.
 */
module Framing {
  import opened Bytes

  /** A read at least this long is taken to be the first part of a longer stanza. */
  const MULTI_PACKET_THRESHOLD: nat := 16384

  /** `s.lstrip(c)`: drops every leading `c`. */
  function StripLeading(s: Bytes, c: byte): (r: Bytes)
    ensures |r| <= |s|
  {
    if s != [] && s[0] == c then StripLeading(s[1..], c) else s
  }

  /** What `lstrip` keeps is a suffix, everything it drops is `c`, and it stops at the first other byte. */
  lemma {:induction false} StripLeadingSpec(s: Bytes, c: byte)
    ensures var r := StripLeading(s, c);
      && r == s[|s| - |r|..]
      && (forall i | 0 <= i < |s| - |r| :: s[i] == c)
      && (r == [] || r[0] != c)
  {
    if s != [] && s[0] == c {
      StripLeadingSpec(s[1..], c);
      var r := StripLeading(s, c);
      forall i | 0 <= i < |s| - |r|
        ensures s[i] == c
      {
        if i > 0 {
          assert s[i] == s[1..][i - 1];
        }
      }
    }
  }

  /** `s.split(c)[0]`: everything before the first `c`, or all of `s` when there is none. */
  function BeforeFirst(s: Bytes, c: byte): (r: Bytes)
    ensures |r| <= |s|
  {
    if s == [] || s[0] == c then [] else [s[0]] + BeforeFirst(s[1..], c)
  }

  /** What `split(c)[0]` keeps is a prefix free of `c`, cut exactly at the first `c`. */
  lemma {:induction false} BeforeFirstSpec(s: Bytes, c: byte)
    ensures var r := BeforeFirst(s, c);
      && r == s[..|r|]
      && c !in r
      && (|r| < |s| ==> s[|r|] == c)
  {
    if s != [] && s[0] != c {
      BeforeFirstSpec(s[1..], c);
      var t := BeforeFirst(s[1..], c);
      assert [s[0]] + t == s[..1 + |t|] by {
        assert t == s[1..][..|t|];
      }
      if 1 + |t| < |s| {
        assert s[1 + |t|] == s[1..][|t|];
      }
    }
  }

  /**
   * Where the opening tag name sits in `data`: `data[..i]` is the run of leading `<`
   * and `data[i..j]` is the longest stretch after it that holds neither `>` nor a space.
   */
  ghost predicate TagSpan(data: Bytes, i: nat, j: nat)
  {
    && i <= j <= |data|
    && (forall k | 0 <= k < i :: data[k] == LT)
    && (i < |data| ==> data[i] != LT)
    && (forall k | i <= k < j :: data[k] != GT && data[k] != SPACE)
    && (j < |data| ==> data[j] == GT || data[j] == SPACE)
  }

  /** True when the tag piece `data[i..j]` ends in `/`, the mark of a self-closing tag. */
  ghost predicate SelfClosingSpan(data: Bytes, i: nat, j: nat)
    requires i <= j <= |data|
  {
    i < j && data[j - 1] == SLASH
  }

  /** `data.lstrip(b'<').split(b'>')[0].split(b' ')[0]`: the tag piece before a `/` is looked for. */
  function TagPiece(data: Bytes): Bytes
  {
    BeforeFirst(BeforeFirst(StripLeading(data, LT), GT), SPACE)
  }

  /** The name of the first tag of `data`, and whether that tag is self-closing. */
  function ParseStartTag(data: Bytes): (r: (Bytes, bool))
  {
    var piece := TagPiece(data);
    var isClosing := |piece| > 0 && piece[|piece| - 1] == SLASH;
    (if isClosing then piece[..|piece| - 1] else piece, isClosing)
  }

  /** Cutting at the first `c1` and then at the first `c2` keeps a prefix free of both. */
  lemma BeforeFirstTwice(s: Bytes, c1: byte, c2: byte)
    ensures var piece := BeforeFirst(BeforeFirst(s, c1), c2);
      && piece == s[..|piece|]
      && (forall k | 0 <= k < |piece| :: piece[k] != c1 && piece[k] != c2)
      && (|piece| < |s| ==> s[|piece|] == c1 || s[|piece|] == c2)
  {
    var cut := BeforeFirst(s, c1);
    var piece := BeforeFirst(cut, c2);
    BeforeFirstSpec(s, c1);
    BeforeFirstSpec(cut, c2);
    assert piece == s[..|piece|] by {
      assert cut[..|piece|] == s[..|piece|];
    }
    forall k | 0 <= k < |piece|
      ensures piece[k] != c1 && piece[k] != c2
    {
      assert piece[k] == cut[k];
    }
    if |piece| < |s| && |piece| < |cut| {
      assert s[|piece|] == cut[|piece|];
    }
  }

  /** The conditions of `TagSpan`, gathered for a piece found at offset `i`. */
  lemma SpanOfParts(data: Bytes, i: nat, piece: Bytes)
    requires i + |piece| <= |data| && piece == data[i..i + |piece|]
    requires forall k | 0 <= k < i :: data[k] == LT
    requires i < |data| ==> data[i] != LT
    requires forall k | 0 <= k < |piece| :: piece[k] != GT && piece[k] != SPACE
    requires i + |piece| < |data| ==> data[i + |piece|] == GT || data[i + |piece|] == SPACE
    ensures TagSpan(data, i, i + |piece|)
  {
    forall k | i <= k < i + |piece|
      ensures data[k] != GT && data[k] != SPACE
    {
      assert data[k] == piece[k - i];
    }
  }

  /** The tag piece is the tag span that starts after the leading `<` run. */
  lemma TagPieceSpan(data: Bytes)
    ensures var i := |data| - |StripLeading(data, LT)|;
      && TagSpan(data, i, i + |TagPiece(data)|)
      && TagPiece(data) == data[i..i + |TagPiece(data)|]
  {
    var stripped := StripLeading(data, LT);
    var piece := TagPiece(data);
    var i := |data| - |stripped|;
    StripLeadingSpec(data, LT);
    assert stripped == data[i..];
    BeforeFirstTwice(stripped, GT, SPACE);
    assert piece == data[i..i + |piece|];
    if i < |data| {
      assert data[i] == stripped[0];
    }
    if i + |piece| < |data| {
      assert data[i + |piece|] == stripped[|piece|];
    }
    SpanOfParts(data, i, piece);
  }

  /** The returned tag holds neither `>` nor a space and does not start with `<`. */
  lemma StartTagShape(data: Bytes)
    ensures GT !in ParseStartTag(data).0 && SPACE !in ParseStartTag(data).0
    ensures ParseStartTag(data).0 == [] || ParseStartTag(data).0[0] != LT
  {
    TagPieceSpan(data);
    var piece := TagPiece(data);
    var tag := ParseStartTag(data).0;
    assert tag == piece[..|tag|];
  }

  /** A tag span, when there is one, is the only one. */
  lemma TagSpanUnique(data: Bytes, i: nat, j: nat, i': nat, j': nat)
    requires TagSpan(data, i, j) && TagSpan(data, i', j')
    ensures i == i' && j == j'
  {
  }

  /** Every input has exactly one tag span. */
  lemma TagSpanExists(data: Bytes)
    ensures exists i: nat, j: nat ::
      && TagSpan(data, i, j)
      && forall i': nat, j': nat | TagSpan(data, i', j') :: i' == i && j' == j
  {
    TagPieceSpan(data);
    var i := |data| - |StripLeading(data, LT)|;
    var j := i + |TagPiece(data)|;
    forall i': nat, j': nat | TagSpan(data, i', j')
      ensures i' == i && j' == j
    {
      TagSpanUnique(data, i, j, i', j');
    }
  }

  /** Whatever tag span is given, the tag piece is its bytes. */
  lemma TagSpanIsPiece(data: Bytes, i: nat, j: nat)
    requires TagSpan(data, i, j)
    ensures TagPiece(data) == data[i..j]
  {
    TagPieceSpan(data);
    var i' := |data| - |StripLeading(data, LT)|;
    TagSpanUnique(data, i, j, i', i' + |TagPiece(data)|);
  }

  /**
   * `ParseStartTag` returns the tag span's bytes; when the span ends in `/` it is
   * reported as closing and exactly that one `/` is dropped.
   */
  lemma ParseStartTagSpec(data: Bytes, i: nat, j: nat)
    requires TagSpan(data, i, j)
    ensures ParseStartTag(data).1 == SelfClosingSpan(data, i, j)
    ensures ParseStartTag(data).0 == if SelfClosingSpan(data, i, j) then data[i..j - 1] else data[i..j]
  {
    var piece := TagPiece(data);
    TagSpanIsPiece(data, i, j);
    if i < j {
      assert piece[|piece| - 1] == data[j - 1];
      assert piece[..|piece| - 1] == data[i..j - 1];
    }
  }

  /** `b'</' + tag + b'>'`. */
  function ClosingTag(tag: Bytes): Bytes
  {
    [LT, SLASH] + tag + [GT]
  }

  /** `data.endswith(b'</' + expected_end_tag + b'>')`. */
  function EndsWithTag(expectedEndTag: Bytes, data: Bytes): (r: bool)
    ensures r ==> |expectedEndTag| + 3 <= |data| && data[|data| - 1] == GT
  {
    var closing := ClosingTag(expectedEndTag);
    |closing| <= |data| && data[|data| - |closing|..] == closing
  }

  /** `ends_with_tag` holds exactly when some suffix of the read is the closing tag. */
  lemma EndsWithTagSpec(expectedEndTag: Bytes, data: Bytes)
    ensures EndsWithTag(expectedEndTag, data)
        <==> exists k | 0 <= k <= |data| :: data[k..] == ClosingTag(expectedEndTag)
  {
    var closing := ClosingTag(expectedEndTag);
    if EndsWithTag(expectedEndTag, data) {
      assert data[|data| - |closing|..] == closing;
    }
    forall k | 0 <= k <= |data| && data[k..] == closing
      ensures EndsWithTag(expectedEndTag, data)
    {
      assert |data[k..]| == |data| - k;
    }
  }

  /** The partial stanza a connection holds: `partial_data` with its `partial_data_start_tag`. */
  datatype Buffer = Idle | Partial(data: Bytes, startTag: Bytes)

  /** The bytes held back, not yet dispatched. */
  function Pending(b: Buffer): Bytes
  {
    match b
    case Idle => []
    case Partial(data, _) => data
  }

  /** The buffer after one read, and the complete stanzas that read dispatched. */
  datatype Fed = Fed(buffer: Buffer, dispatched: seq<Bytes>)

  /** One `data_received(chunk)`: the new buffer and what this read dispatched. */
  function Feed(b: Buffer, chunk: Bytes): (r: Fed)
    ensures |r.dispatched| <= 1
    ensures r.dispatched == [] <==> r.buffer.Partial?
  {
    match b
    case Idle =>
      if |chunk| < MULTI_PACKET_THRESHOLD then Fed(Idle, [chunk])
      else Fed(Partial(chunk, ParseStartTag(chunk).0), [])
    case Partial(data, tag) =>
      if EndsWithTag(tag, chunk) then Fed(Idle, [data + chunk])
      else Fed(Partial(data + chunk, tag), [])
  }

  /**
   * A read dispatches at most one stanza, and does so exactly when it leaves no stanza
   * pending; it never loses or reorders a byte, and keeps the tag it waits for until
   * the stanza completes.
   */
  lemma FeedConserves(b: Buffer, chunk: Bytes)
    ensures var r := Feed(b, chunk);
      && Flatten(r.dispatched) + Pending(r.buffer) == Pending(b) + chunk
      && |r.dispatched| <= 1
      && (r.dispatched == [] <==> r.buffer.Partial?)
      && (b.Partial? && r.buffer.Partial? ==> r.buffer.startTag == b.startTag)
  {
    var r := Feed(b, chunk);
    if r.dispatched != [] {
      assert Flatten(r.dispatched) == r.dispatched[0] + Flatten([]);
    }
  }

  /** Regrouping a concatenation of three byte strings; a hint for the conservation calculation. */
  lemma Associative(a: Bytes, b: Bytes, c: Bytes)
    ensures (a + b) + c == a + (b + c)
  {
  }

  /** Successive reads, in order. */
  function FeedAll(b: Buffer, chunks: seq<Bytes>): (r: Fed)
    ensures |r.dispatched| <= |chunks|
    decreases |chunks|
  {
    if chunks == [] then
      Fed(b, [])
    else
      var first := Feed(b, chunks[0]);
      var rest := FeedAll(first.buffer, chunks[1..]);
      Fed(rest.buffer, first.dispatched + rest.dispatched)
  }

  /**
   * Over any run of reads, the dispatched stanzas followed by what is still buffered
   * are exactly the bytes that were buffered before followed by every chunk read.
   */
  lemma {:induction false} FeedAllConserves(b: Buffer, chunks: seq<Bytes>)
    ensures Flatten(FeedAll(b, chunks).dispatched) + Pending(FeedAll(b, chunks).buffer)
         == Pending(b) + Flatten(chunks)
    decreases |chunks|
  {
    if chunks != [] {
      var first := Feed(b, chunks[0]);
      var rest := FeedAll(first.buffer, chunks[1..]);
      var d1, d2 := Flatten(first.dispatched), Flatten(rest.dispatched);
      assert Flatten(FeedAll(b, chunks).dispatched) == d1 + d2 by {
        FlattenAppend(first.dispatched, rest.dispatched);
      }
      assert d1 + Pending(first.buffer) == Pending(b) + chunks[0] by {
        FeedConserves(b, chunks[0]);
      }
      assert d2 + Pending(rest.buffer) == Pending(first.buffer) + Flatten(chunks[1..]) by {
        FeedAllConserves(first.buffer, chunks[1..]);
      }
      calc {
        Flatten(FeedAll(b, chunks).dispatched) + Pending(FeedAll(b, chunks).buffer);
        (d1 + d2) + Pending(rest.buffer);
        { Associative(d1, d2, Pending(rest.buffer)); }
        d1 + (d2 + Pending(rest.buffer));
        d1 + (Pending(first.buffer) + Flatten(chunks[1..]));
        { Associative(d1, Pending(first.buffer), Flatten(chunks[1..])); }
        (d1 + Pending(first.buffer)) + Flatten(chunks[1..]);
        (Pending(b) + chunks[0]) + Flatten(chunks[1..]);
        { Associative(Pending(b), chunks[0], Flatten(chunks[1..])); }
        Pending(b) + Flatten(chunks);
      }
    }
  }

  /** With no stanza pending, reads below the threshold are dispatched one by one, unchanged. */
  lemma {:induction false} SmallChunksDispatchedApart(chunks: seq<Bytes>)
    requires forall i | 0 <= i < |chunks| :: |chunks[i]| < MULTI_PACKET_THRESHOLD
    ensures FeedAll(Idle, chunks) == Fed(Idle, chunks)
  {
    if chunks != [] {
      SmallChunksDispatchedApart(chunks[1..]);
      assert [chunks[0]] + chunks[1..] == chunks;
    }
  }

  /** Once a stanza is pending, reads accumulate until one ends with the closing tag. */
  lemma {:induction false} AccumulateUntilClosed(data: Bytes, tag: Bytes, middle: seq<Bytes>, last: Bytes)
    requires forall i | 0 <= i < |middle| :: !EndsWithTag(tag, middle[i])
    requires EndsWithTag(tag, last)
    ensures FeedAll(Partial(data, tag), middle + [last]) == Fed(Idle, [data + Flatten(middle) + last])
    decreases |middle|
  {
    var chunks := middle + [last];
    if middle == [] {
      assert chunks == [last] && chunks[1..] == [];
      assert Feed(Partial(data, tag), last) == Fed(Idle, [data + last]);
      assert FeedAll(Idle, []) == Fed(Idle, []);
      assert data + Flatten(middle) == data;
    } else {
      assert chunks[0] == middle[0];
      assert chunks[1..] == middle[1..] + [last];
      assert Feed(Partial(data, tag), middle[0]) == Fed(Partial(data + middle[0], tag), []);
      AccumulateUntilClosed(data + middle[0], tag, middle[1..], last);
      assert data + middle[0] + Flatten(middle[1..]) + last == data + Flatten(middle) + last;
    }
  }

  /**
   * A stanza whose first read reaches the threshold, followed by reads none of which
   * ends with its closing tag until the last one does, is dispatched exactly once, as
   * the byte-identical concatenation of all of its reads, and the buffer is released.
   */
  lemma Reassembly(first: Bytes, middle: seq<Bytes>, last: Bytes)
    requires |first| >= MULTI_PACKET_THRESHOLD
    requires forall i | 0 <= i < |middle| :: !EndsWithTag(ParseStartTag(first).0, middle[i])
    requires EndsWithTag(ParseStartTag(first).0, last)
    ensures FeedAll(Idle, [first] + middle + [last]) == Fed(Idle, [first + Flatten(middle) + last])
  {
    var tag := ParseStartTag(first).0;
    OpenStanza(first, tag, middle + [last]);
    assert [first] + middle + [last] == [first] + (middle + [last]);
    AccumulateUntilClosed(first, tag, middle, last);
  }

  /** A first read at the threshold opens a pending stanza and dispatches nothing. */
  lemma OpenStanza(first: Bytes, tag: Bytes, rest: seq<Bytes>)
    requires |first| >= MULTI_PACKET_THRESHOLD && tag == ParseStartTag(first).0
    ensures FeedAll(Idle, [first] + rest) == FeedAll(Partial(first, tag), rest)
  {
    var chunks := [first] + rest;
    assert chunks[0] == first && chunks[1..] == rest;
    assert Feed(Idle, first) == Fed(Partial(first, tag), []);
    var r := FeedAll(Partial(first, tag), rest);
    assert [] + r.dispatched == r.dispatched;
  }

  /**
   * Only the newest read is checked for the closing tag: when `>` arrives in a read of
   * its own, the buffer then ends with the closing tag, yet nothing is dispatched.
   */
  lemma SplitClosingTagIsMissed(data: Bytes, tag: Bytes)
    ensures var r := Feed(Partial(data + [LT, SLASH] + tag, tag), [GT]);
      && r.dispatched == []
      && r.buffer == Partial(data + ClosingTag(tag), tag)
      && EndsWithTag(tag, Pending(r.buffer))
  {
    var whole := data + ClosingTag(tag);
    assert data + [LT, SLASH] + tag + [GT] == whole;
    assert whole[|data|..] == ClosingTag(tag);
  }
}

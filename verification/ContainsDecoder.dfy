/**
 The hand-written decoder of a `repeated bool found = 1` message: varints of at most ten bytes, and nested loops over
 one shared position, proved against a parser of the remaining bytes.
 */
module ContainsDecoder {
  import opened Base

  // ---------------------------------------------------------------------------------------
  // Varints
  // ---------------------------------------------------------------------------------------

  function Weight(i: nat): (w: nat)
    ensures w > 0
  {
    if i == 0 then 1 else 128 * Weight(i - 1)
  }

  /** Seven bits a byte, the least significant first. */
  function Sum(w: Bytes): nat {
    if w == [] then 0 else Sum(Front(w)) + Last(w) % 128 * Weight(|w| - 1)
  }

  function Value(w: Bytes): (v: nat)
    ensures v < U64_LIMIT
  {
    Sum(w) % U64_LIMIT
  }

  predicate IsVarint(w: Bytes) {
    1 <= |w| <= 10 && Last(w) < 128 && forall i | 0 <= i < |w| - 1 :: w[i] >= 128
  }

  function Power2(n: nat): (p: nat)
    ensures p > 0
  {
    if n == 0 then 1 else 2 * Power2(n - 1)
  }

  lemma {:induction false} WeightIsShift(i: nat)
    ensures Weight(i) == Power2(7 * i)
  {
    if i > 0 {
      WeightIsShift(i - 1);
      var n := 7 * i;
      assert Power2(n) == 4 * Power2(n - 2) == 16 * Power2(n - 4) == 64 * Power2(n - 6) == 128 * Power2(n - 7);
    }
  }

  /** The length of the varint `b` begins with, where `k` bytes are known to continue it; 0 without one. */
  function VarintFrom(b: Bytes, k: nat): (n: nat)
    ensures n <= |b| && n <= 10
    decreases |b| - k
  {
    if k >= |b| || k >= 10 then 0 else if b[k] < 128 then k + 1 else VarintFrom(b, k + 1)
  }

  function VarintLength(b: Bytes): (n: nat)
    ensures n <= |b| && n <= 10
  {
    VarintFrom(b, 0)
  }

  lemma {:induction false} VarintFromMeans(b: Bytes, k: nat, n: nat)
    requires k <= |b| && k < n <= |b| && forall i | 0 <= i < k :: b[i] >= 128
    ensures VarintFrom(b, k) == n <==> IsVarint(b[..n])
    decreases |b| - k
  {
    if k < 10 {
      if b[k] < 128 {
        assert n > k + 1 ==> b[..n][k] < 128;
      } else if n == k + 1 {
        assert Last(b[..n]) == b[k];
        VarintFromGrows(b, k + 1);
      } else {
        VarintFromMeans(b, k + 1, n);
      }
    }
  }

  lemma {:induction false} VarintFromGrows(b: Bytes, k: nat)
    ensures VarintFrom(b, k) == 0 || VarintFrom(b, k) > k
    decreases |b| - k
  {
    if k < |b| && k < 10 && b[k] >= 128 {
      VarintFromGrows(b, k + 1);
    }
  }

  /** A varint has one length: it is the only prefix that ends in a byte without the continuation bit. */
  lemma VarintLengthMeans(b: Bytes, n: nat)
    requires 0 < n <= |b|
    ensures VarintLength(b) == n <==> IsVarint(b[..n])
  {
    VarintFromMeans(b, 0, n);
  }

  lemma VarintThenRest(w: Bytes, rest: Bytes)
    requires IsVarint(w)
    ensures VarintLength(w + rest) == |w| && (w + rest)[..|w|] == w && (w + rest)[|w|..] == rest
  {
    assert (w + rest)[..|w|] == w;
    VarintLengthMeans(w + rest, |w|);
  }

  lemma {:induction false} SumBound(w: Bytes)
    ensures Sum(w) < Weight(|w|)
  {
    if w != [] {
      SumBound(Front(w));
      var x: int := Last(w);
      Scale(x % 128, 127, Weight(|w| - 1));
    }
  }

  lemma SumOfNone()
    ensures Sum([]) == 0
  {
  }

  lemma Scale(a: nat, b: nat, w: nat)
    requires a <= b
    ensures a * w <= b * w
  {
  }

  lemma TopWeight()
    ensures Weight(9) * 2 == U64_LIMIT && forall i: nat | i <= 9 :: Weight(i) <= Weight(9)
  {
    assert Weight(1) == 128 && Weight(2) == 128 * 128;
    assert Weight(4) == Weight(2) * Weight(2) by { assert Weight(3) == 128 * Weight(2); }
    assert Weight(6) == 128 * 128 * Weight(4) by { assert Weight(5) == 128 * Weight(4); }
    assert Weight(8) == 128 * 128 * Weight(6) by { assert Weight(7) == 128 * Weight(6); }
    forall i: nat | i <= 9
      ensures Weight(i) <= Weight(9)
    {
      WeightGrows(i, 9);
    }
  }

  lemma {:induction false} WeightGrows(i: nat, j: nat)
    requires i <= j
    ensures Weight(i) <= Weight(j)
  {
    if i < j {
      WeightGrows(i, j - 1);
    }
  }

  /** Shifting each group in 64 bits loses only what lies above them, so the truncated sum is the sum truncated. */
  lemma NextGroup(w: Bytes, x: Byte)
    requires |w| <= 9
    ensures Value(w + [x]) == Sum(w) + x % 128 * Weight(|w|) % U64_LIMIT
    ensures |w| < 9 ==> Value(w + [x]) == Sum(w + [x])
  {
    hide *;
    SumSnoc(w, x);
    SumBound(w);
    TopWeight();
    if |w| < 9 {
      SumBound(w + [x]);
      WeightGrows(|w| + 1, 9);
    }
    ValueIs(w + [x]);
    Group(Sum(w), x % 128, Weight(|w|));
  }

  lemma SumSnoc(w: Bytes, x: Byte)
    ensures Sum(w + [x]) == Sum(w) + x % 128 * Weight(|w|)
  {
    SnocParts(w, x);
  }

  lemma Group(sum: nat, bits: nat, n: nat)
    requires sum < n && (sum + bits * n < U64_LIMIT || 2 * n == U64_LIMIT)
    ensures (sum + bits * n) % U64_LIMIT == sum + bits * n % U64_LIMIT
    ensures sum + bits * n < U64_LIMIT ==> (sum + bits * n) % U64_LIMIT == sum + bits * n
  {
    Scale(0, bits, n);
    if sum + bits * n < U64_LIMIT {
      Small(sum + bits * n);
      Small(bits * n);
    } else {
      HighGroup(bits, n);
      Truncate(sum + bits % 2 * n, bits / 2);
    }
  }

  lemma Small(v: nat)
    requires v < U64_LIMIT
    ensures v % U64_LIMIT == v
  {
  }

  lemma ValueIs(w: Bytes)
    ensures Value(w) == Sum(w) % U64_LIMIT
  {
  }

  lemma HighGroup(bits: nat, n: nat)
    requires 2 * n == U64_LIMIT
    ensures bits * n == bits % 2 * n + bits / 2 * U64_LIMIT && bits * n % U64_LIMIT == bits % 2 * n <= n
  {
    var h := bits / 2;
    assert bits == 2 * h + bits % 2;
    assert bits * n == 2 * h * n + bits % 2 * n == h * (2 * n) + bits % 2 * n;
    Truncate(bits % 2 * n, h);
  }

  lemma Truncate(low: nat, k: nat)
    requires low < U64_LIMIT
    ensures (low + k * U64_LIMIT) % U64_LIMIT == low
  {
  }

  method ReadVarint(bytes: Bytes, from: nat) returns (value: Option<nat>, pos: nat)
    requires from <= |bytes|
    ensures from <= pos <= |bytes|
    ensures var n := VarintLength(bytes[from..]);
            if n == 0 then value == None else pos == from + n && value == Some(Value(bytes[from..pos]))
  {
    hide Sum, Weight, Power2, Value, IsVarint;
    var v, shift := 0, 0;
    pos := from;
    ghost var rest := bytes[from..];
    assert bytes[from..pos] == [];
    SumOfNone();
    while pos < |bytes|
      invariant from <= pos <= |bytes| && pos - from < 10 && shift == 7 * (pos - from)
      invariant v == Sum(bytes[from..pos])
      invariant VarintLength(rest) == VarintFrom(rest, pos - from)
    {
      var b: int := bytes[pos];
      assert rest[pos - from] == b && bytes[from..pos] + [bytes[pos]] == bytes[from..pos + 1];
      NextGroup(bytes[from..pos], bytes[pos]);
      WeightIsShift(pos - from);
      v := v + b % 128 * Power2(shift) % U64_LIMIT;
      pos := pos + 1;
      if b < 128 {
        return Some(v), pos;
      }
      shift := shift + 7;
      if shift > 63 {
        return None, pos;
      }
    }
    value := None;
  }

  // ---------------------------------------------------------------------------------------
  // The message
  // ---------------------------------------------------------------------------------------

  function Before(bs: seq<bool>, r: Option<seq<bool>>): Option<seq<bool>> {
    if r.Some? then Some(bs + r.value) else None
  }

  /** The answers in `b`, of which `left` bytes still belong to a packed field. */
  function Parse(b: Bytes, left: int): Option<seq<bool>>
    decreases |b|, 0
  {
    if left <= 0 && b == [] then Some([])
    else
      var n := VarintLength(b);
      if n == 0 then None
      else if left > 0 then Before([Value(b[..n]) != 0], Parse(b[n..], left - n))
      else
        var tag, rest := Value(b[..n]), b[n..];
        var m := VarintLength(rest);
        if m == 0 || (tag % 8 != 0 && tag % 8 != 2) then None
        else ParseField(tag, Value(rest[..m]), rest[m..])
  }

  function ParseField(tag: nat, v: nat, rest: Bytes): Option<seq<bool>>
    decreases |rest|, 1
  {
    if tag % 8 == 0 then Before(if tag / 8 == 1 then [v != 0] else [], Parse(rest, 0))
    else if v > |rest| then None
    else if tag / 8 == 1 then Parse(rest, v)
    else Parse(rest[v..], 0)
  }

  /** What the next varint of a packed field adds. */
  lemma PackedTurn(b: Bytes, left: int)
    requires left > 0
    ensures var n := VarintLength(b);
            Parse(b, left) == if n == 0 then None else Before([Value(b[..n]) != 0], Parse(b[n..], left - n))
  {
  }

  /** What a tag and the varint behind it add. */
  lemma FieldTurn(b: Bytes)
    requires b != []
    ensures var n := VarintLength(b);
            if n == 0 then Parse(b, 0) == None
            else
              var tag, rest := Value(b[..n]), b[n..];
              var m := VarintLength(rest);
              Parse(b, 0) == if m == 0 || (tag % 8 != 0 && tag % 8 != 2) then None
                             else ParseField(tag, Value(rest[..m]), rest[m..])
  {
  }

  lemma NoPackedBytesLeft(b: Bytes, left: int)
    requires left <= 0
    ensures Parse(b, left) == Parse(b, 0)
  {
  }

  lemma BeforeTwice(a: seq<bool>, b: seq<bool>, r: Option<seq<bool>>)
    ensures Before(a, Before(b, r)) == Before(a + b, r) && Before([], r) == r
  {
    if r.Some? {
      assert a + (b + r.value) == (a + b) + r.value && [] + r.value == r.value;
    }
  }

  lemma SliceTwice(b: Bytes, i: nat, n: nat)
    requires i + n <= |b|
    ensures b[i..][..n] == b[i..i + n] && b[i..][n..] == b[i + n..]
  {
  }

  /** The bytes from `pos` on, with `left` of them in a packed field, still owe the rest of the answers. */
  ghost predicate Owes(bytes: Bytes, pos: nat, left: int, found: seq<bool>) {
    pos <= |bytes| && Parse(bytes, 0) == Before(found, Parse(bytes[pos..], left))
  }

  lemma OwesPacked(bytes: Bytes, pos: nat, left: int, found: seq<bool>, n: nat)
    requires Owes(bytes, pos, left, found) && left > 0 && n == VarintLength(bytes[pos..])
    ensures n == 0 ==> Parse(bytes, 0) == None
    ensures n > 0 ==> pos + n <= |bytes| && Owes(bytes, pos + n, left - n, found + [Value(bytes[pos..pos + n]) != 0])
  {
    hide Parse, Value, VarintLength;
    PackedTurn(bytes[pos..], left);
    if n > 0 {
      SliceTwice(bytes, pos, n);
      BeforeTwice(found, [Value(bytes[pos..pos + n]) != 0], Parse(bytes[pos + n..], left - n));
    }
  }

  lemma OwesField(bytes: Bytes, pos: nat, found: seq<bool>, n: nat, m: nat)
    requires Owes(bytes, pos, 0, found) && pos < |bytes| && n == VarintLength(bytes[pos..])
    requires pos + n <= |bytes| && m == VarintLength(bytes[pos + n..])
    ensures n == 0 || m == 0 ==> Parse(bytes, 0) == None
    ensures n > 0 && m > 0 ==> pos + n + m <= |bytes|
    ensures n > 0 && m > 0 && Value(bytes[pos..pos + n]) % 8 !in {0, 2} ==> Parse(bytes, 0) == None
    ensures n > 0 && m > 0 && Value(bytes[pos..pos + n]) % 8 in {0, 2} ==>
              var tag, at := Value(bytes[pos..pos + n]), pos + n + m;
              Parse(bytes, 0) == Before(found, ParseField(tag, Value(bytes[pos + n..at]), bytes[at..]))
  {
    hide Parse, ParseField, Value, VarintLength;
    FieldTurn(bytes[pos..]);
    if n > 0 {
      SliceTwice(bytes, pos, n);
      if m > 0 {
        SliceTwice(bytes, pos + n, m);
      }
    }
  }

  lemma FieldLeaves(bytes: Bytes, at: nat, found: seq<bool>, tag: nat, v: nat)
    requires at <= |bytes| && Parse(bytes, 0) == Before(found, ParseField(tag, v, bytes[at..]))
    ensures tag % 8 == 0 ==> Owes(bytes, at, 0, found + if tag / 8 == 1 then [v != 0] else [])
    ensures tag % 8 == 2 && at + v > |bytes| ==> Parse(bytes, 0) == None
    ensures tag % 8 == 2 && at + v <= |bytes| ==>
              if tag / 8 == 1 then Owes(bytes, at, v, found) else Owes(bytes, at + v, 0, found)
  {
    hide Parse;
    if tag % 8 == 0 {
      BeforeTwice(found, if tag / 8 == 1 then [v != 0] else [], Parse(bytes[at..], 0));
    } else if tag % 8 == 2 && at + v <= |bytes| {
      SliceTwice(bytes, at, v);
    }
  }

  lemma OwesNoMore(bytes: Bytes, pos: nat, left: int, found: seq<bool>)
    requires left <= 0 && Owes(bytes, pos, left, found)
    ensures Owes(bytes, pos, 0, found)
  {
    NoPackedBytesLeft(bytes[pos..], left);
  }

  lemma NothingOwed(bytes: Bytes, found: seq<bool>)
    requires Owes(bytes, |bytes|, 0, found)
    ensures Parse(bytes, 0) == Some(found)
  {
    assert found + [] == found;
  }

  lemma OwesAll(bytes: Bytes)
    ensures Owes(bytes, 0, 0, [])
  {
    hide Parse;
    BeforeTwice([], [], Parse(bytes, 0));
    assert bytes[0..] == bytes;
  }

  method DecodeContains(input: Option<Bytes>) returns (answers: Option<seq<bool>>)
    ensures answers == if input.None? then None else Parse(input.value, 0)
  {
    hide Parse, ParseField, Value, VarintLength, Owes;
    if input.None? {
      return None;
    }
    var bytes := input.value;
    var pos, found: seq<bool> := 0, [];
    OwesAll(bytes);
    while pos < |bytes|
      invariant pos <= |bytes| && Owes(bytes, pos, 0, found)
    {
      ghost var at := pos;
      var tag, v: Option<nat>;
      tag, pos := ReadVarint(bytes, pos);
      if tag.None? {
        OwesField(bytes, at, found, 0, VarintLength(bytes[at..]));
        return None;
      }
      ghost var mid := pos;
      var field, wire := tag.value / 8, tag.value % 8;
      if wire != 0 && wire != 2 {
        OwesField(bytes, at, found, mid - at, VarintLength(bytes[mid..]));
        return None;
      }
      v, pos := ReadVarint(bytes, pos);
      OwesField(bytes, at, found, mid - at, VarintLength(bytes[mid..]));
      if v.None? {
        return None;
      }
      FieldLeaves(bytes, pos, found, tag.value, v.value);
      if wire == 0 {
        if field == 1 {
          found := found + [v.value != 0];
        } else {
          assert found + [] == found;
        }
      } else {
        if pos + v.value > |bytes| {
          return None;
        }
        if field == 1 {
          var end := pos + v.value;
          while pos < end
            invariant at < pos && Owes(bytes, pos, end - pos, found)
            invariant pos <= |bytes|
          {
            ghost var start := pos;
            v, pos := ReadVarint(bytes, pos);
            OwesPacked(bytes, start, end - start, found, VarintLength(bytes[start..]));
            if v.None? {
              return None;
            }
            found := found + [v.value != 0];
          }
          OwesNoMore(bytes, pos, end - pos, found);
        } else {
          pos := pos + v.value;
        }
      }
    }
    NothingOwed(bytes, found);
    answers := Some(found);
  }
}

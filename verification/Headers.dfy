// Custom headers: their canonical form on the wire (src/protocol.rs) and their check in the configuration
// (src/config.rs).

module Headers {
  import opened Common
  import opened Ordering
  import opened Protocol

  const MAX_HEADERS: nat := 32
  const MAX_HEADER_BYTES: nat := 4 * 1024

  datatype ProtocolError = Limit | BadHeader

  datatype Canonicalized = Accepted(headers: seq<Header>) | Refused(error: ProtocolError)

  const HYPHEN: byte := 45
  const SPACE: byte := 32

  predicate IsLower(b: byte) { 97 <= b <= 122 }

  predicate IsDigit(b: byte) { 48 <= b <= 57 }

  predicate IsAlphanumeric(b: byte) { IsLower(b) || IsDigit(b) || 65 <= b <= 90 }

  predicate IsHeaderName(name: Text) {
    && 0 < |name| <= 32
    && IsAlphanumeric(name[0]) && IsAlphanumeric(name[|name| - 1])
    && forall b :: b in name ==> IsLower(b) || IsDigit(b) || b == HYPHEN
  }

  predicate IsHeaderValue(value: Text) {
    && 0 < |value| <= 256
    && value[0] != SPACE && value[|value| - 1] != SPACE
    && forall b :: b in value ==> 0x20 <= b <= 0x7e
  }

  function Lowercase(t: Text): (r: Text)
    ensures |r| == |t|
  {
    seq(|t|, i requires 0 <= i < |t| => if 65 <= t[i] <= 90 then t[i] + 32 else t[i])
  }

  /** The prefixes "rop-" and "x-rop-" belong to the protocol. */
  predicate Reserved(name: Text) {
    [114, 111, 112, HYPHEN] <= name || [120, HYPHEN, 114, 111, 112, HYPHEN] <= name
  }

  function NameOf(h: Header): Text { h.name }

  predicate Admissible(h: Header) {
    IsHeaderName(h.name) && IsHeaderValue(h.value) && !Reserved(h.name)
  }

  function TotalBytes(hs: seq<Header>): nat {
    if hs == [] then 0 else TotalBytes(hs[..|hs| - 1]) + |hs[|hs| - 1].name| + |hs[|hs| - 1].value|
  }

  /** What `canonical_headers` promises, without a word on how the list is walked. */
  ghost function Canonical(hs: seq<Header>): Canonicalized {
    if |hs| > MAX_HEADERS then Refused(Limit)
    else if (exists h :: h in hs && !Admissible(h)) || !DistinctKeys(hs, NameOf) then Refused(BadHeader)
    else if TotalBytes(hs) > MAX_HEADER_BYTES then Refused(Limit)
    else Accepted(Sorted(hs, NameOf))
  }

  /** A valid name has no upper-case letter left, so lower-casing it changes nothing. */
  lemma LowercaseKeepsNames(name: Text)
    requires IsHeaderName(name)
    ensures Lowercase(name) == name
  {
    forall i | 0 <= i < |name|
      ensures Lowercase(name)[i] == name[i]
    {
      assert name[i] in name;
    }
  }

  function NamesOf(hs: seq<Header>): set<Text> {
    set h | h in hs :: h.name
  }

  /** The part of the list already walked is faultless. */
  ghost predicate Faultless(hs: seq<Header>) {
    DistinctKeys(hs, NameOf) && forall h :: h in hs ==> Admissible(h)
  }

  lemma OneMore(list: seq<Header>, k: nat)
    requires k < |list|
    ensures NamesOf(list[..k + 1]) == NamesOf(list[..k]) + {list[k].name}
    ensures TotalBytes(list[..k + 1]) == TotalBytes(list[..k]) + |list[k].name| + |list[k].value|
    ensures Faultless(list[..k]) && Admissible(list[k]) && list[k].name !in NamesOf(list[..k]) ==>
              Faultless(list[..k + 1])
    ensures list[k].name in NamesOf(list[..k]) ==> !DistinctKeys(list, NameOf)
    ensures !Admissible(list[k]) ==> exists h :: h in list && !Admissible(h)
  {
    hide Admissible;
    assert list[k] in list && list[..k + 1] == list[..k] + [list[k]];
    assert list[..k + 1][..k] == list[..k];
    forall i | 0 <= i < k
      ensures list[i].name in NamesOf(list[..k])
    {
      assert list[..k][i] in list[..k];
    }
    if list[k].name in NamesOf(list[..k]) {
      var h :| h in list[..k] && h.name == list[k].name;
      var i :| 0 <= i < k && list[i] == h;
      assert NameOf(list[i]) == NameOf(list[k]);
    }
  }

  method CanonicalHeaders(headers: seq<Header>) returns (result: Canonicalized)
    ensures result == Canonical(headers)
  {
    hide IsHeaderName, IsHeaderValue, Reserved, Lowercase, TotalBytes, NamesOf, Sorted, DistinctKeys;
    if |headers| > MAX_HEADERS {
      return Refused(Limit);
    }
    var list := Sorted(headers, NameOf);
    SortedIsAnAscendingPermutation(headers, NameOf);
    CanonicalForgetsOrder(headers, list);
    ghost var sorted := list;
    var seen: set<Text> := {};
    var total := 0;
    EmptyWalk(list);
    for k := 0 to |list|
      invariant list == sorted
      invariant seen == NamesOf(list[..k])
      invariant Faultless(list[..k])
      invariant total == TotalBytes(list[..k])
    {
      OneMore(list, k);
      if !IsHeaderName(list[k].name) || !IsHeaderValue(list[k].value) {
        return Refused(BadHeader);
      }
      LowercaseKeepsNames(list[k].name);
      list := list[k := Header(Lowercase(list[k].name), list[k].value)];
      assert list == sorted;
      if Reserved(list[k].name) {
        return Refused(BadHeader);
      }
      if list[k].name in seen {
        return Refused(BadHeader);
      }
      seen := seen + {list[k].name};
      total := total + |list[k].name| + |list[k].value|;
    }
    assert list[..|list|] == list;
    if total > MAX_HEADER_BYTES {
      return Refused(Limit);
    }
    list := Sorted(list, NameOf);
    return Accepted(list);
  }

  lemma EmptyWalk(list: seq<Header>)
    ensures NamesOf(list[..0]) == {} && Faultless(list[..0]) && TotalBytes(list[..0]) == 0
  {
  }

  // ----- Properties -----

  lemma {:induction false} TotalAppend(a: seq<Header>, b: seq<Header>)
    ensures TotalBytes(a + b) == TotalBytes(a) + TotalBytes(b)
  {
    if b == [] {
      assert a + b == a;
    } else {
      assert (a + b)[..|a + b| - 1] == a + b[..|b| - 1];
      TotalAppend(a, b[..|b| - 1]);
    }
  }

  lemma TotalWithout(b: seq<Header>, i: nat)
    requires i < |b|
    ensures TotalBytes(b) == TotalBytes(b[..i] + b[i + 1..]) + |b[i].name| + |b[i].value|
  {
    assert b == b[..i] + [b[i]] + b[i + 1..] && [b[i]][..0] == [];
    TotalAppend(b[..i], b[i + 1..]);
    TotalAppend(b[..i], [b[i]]);
    TotalAppend(b[..i] + [b[i]], b[i + 1..]);
  }

  lemma MultisetWithout(b: seq<Header>, i: nat)
    requires i < |b|
    ensures multiset(b[..i] + b[i + 1..]) == multiset(b) - multiset{b[i]}
  {
    assert b == b[..i] + [b[i]] + b[i + 1..];
  }

  lemma {:induction false} TotalForgetsOrder(a: seq<Header>, b: seq<Header>)
    requires multiset(a) == multiset(b)
    ensures TotalBytes(a) == TotalBytes(b)
    decreases |a|
  {
    hide TotalBytes;
    if a == [] {
      assert |multiset(b)| == 0;
    } else {
      SameElements(a, b, a[0]);
      var i :| 0 <= i < |b| && b[i] == a[0];
      MultisetWithout(a, 0);
      MultisetWithout(b, i);
      TotalForgetsOrder(a[..0] + a[1..], b[..i] + b[i + 1..]);
      TotalWithout(a, 0);
      TotalWithout(b, i);
    }
  }

  /** The answer, the kind of error included, does not depend on the order in which the headers come. */
  lemma CanonicalForgetsOrder(a: seq<Header>, b: seq<Header>)
    requires multiset(a) == multiset(b)
    ensures Canonical(a) == Canonical(b)
  {
    assert |a| == |multiset(a)| == |multiset(b)| == |b|;
    forall h
      ensures h in a <==> h in b
    {
      SameElements(a, b, h);
    }
    TotalForgetsOrder(a, b);
    if DistinctKeys(a, NameOf) || DistinctKeys(b, NameOf) {
      if DistinctKeys(a, NameOf) {
        DistinctKeysForgetOrder(a, b, NameOf);
      } else {
        DistinctKeysForgetOrder(b, a, NameOf);
      }
      SortForgetsOrder(a, b, NameOf);
    }
  }

  /** An accepted list keeps every header, each name once, in strictly increasing order. */
  lemma CanonicalIsAnIncreasingPermutation(hs: seq<Header>)
    requires Canonical(hs).Accepted?
    ensures var list := Canonical(hs).headers; multiset(list) == multiset(hs) && Increasing(list, NameOf)
  {
    SortedIsAnAscendingPermutation(hs, NameOf);
    SortForgetsOrder(hs, hs, NameOf);
  }

  /** A second pass changes nothing. */
  lemma CanonicalIsIdempotent(hs: seq<Header>)
    requires Canonical(hs).Accepted?
    ensures Canonical(Canonical(hs).headers) == Canonical(hs)
  {
    CanonicalIsAnIncreasingPermutation(hs);
    CanonicalForgetsOrder(hs, Canonical(hs).headers);
  }

  /** The lists that a peer must send as they are: envelopes with any other header list are refused. */
  lemma FixedPointsExactly(hs: seq<Header>)
    ensures Canonical(hs) == Accepted(hs) <==>
            |hs| <= MAX_HEADERS && (forall h :: h in hs ==> Admissible(h)) && Increasing(hs, NameOf) &&
            TotalBytes(hs) <= MAX_HEADER_BYTES
  {
    IncreasingIsSortedAndDistinct(hs, NameOf);
    if Canonical(hs) == Accepted(hs) {
      CanonicalIsAnIncreasingPermutation(hs);
    } else if Increasing(hs, NameOf) {
      SortForgetsOrder(hs, hs, NameOf);
      SortedIsAnAscendingPermutation(hs, NameOf);
      forall x
        ensures x in hs <==> x in Sorted(hs, NameOf)
      {
        SameElements(hs, Sorted(hs, NameOf), x);
      }
      IncreasingIsUnique(hs, Sorted(hs, NameOf), NameOf);
    }
  }

  /** Mixed-case names are refused, not lower-cased: the second sort never has anything to do. */
  lemma MixedCaseIsRefused(hs: seq<Header>, h: Header, b: byte)
    requires |hs| <= MAX_HEADERS && h in hs && b in h.name && 65 <= b <= 90
    ensures Canonical(hs) == Refused(BadHeader)
  {
    assert !IsHeaderName(h.name);
  }

  /** A name has 1 to 32 lower-case letters, digits and hyphens, with no hyphen at either end. */
  lemma NameExactly(name: Text)
    ensures IsHeaderName(name) <==>
              && 1 <= |name| <= 32 && name[0] != '-' as byte && name[|name| - 1] != '-' as byte
              && forall b :: b in name ==>
                   'a' as byte <= b <= 'z' as byte || '0' as byte <= b <= '9' as byte || b == '-' as byte
  {
    if name != [] {
      assert name[0] in name && name[|name| - 1] in name;
    }
  }

  /** A value has 1 to 256 printable characters, with no space at either end. */
  lemma ValueExactly(value: Text)
    ensures IsHeaderValue(value) <==>
              && 1 <= |value| <= 256 && value[0] != ' ' as byte && value[|value| - 1] != ' ' as byte
              && forall b :: b in value ==> ' ' as byte <= b <= '~' as byte
  {
  }

  /** The reserved names. */
  lemma ReservedExactly(name: Text)
    ensures Reserved(name) <==> Ascii("rop-") <= name || Ascii("x-rop-") <= name
  {
    assert Ascii("rop-") == [114, 111, 112, HYPHEN] && Ascii("x-rop-") == [120, HYPHEN, 114, 111, 112, HYPHEN];
  }

  /** All names and values, one after the other. */
  function Written(hs: seq<Header>): Text {
    if hs == [] then [] else hs[0].name + hs[0].value + Written(hs[1..])
  }

  lemma {:induction false} TotalIsTheLength(hs: seq<Header>)
    ensures TotalBytes(hs) == |Written(hs)|
  {
    if hs != [] {
      TotalIsTheLength(hs[1..]);
      TotalAppend([hs[0]], hs[1..]);
      assert [hs[0]] + hs[1..] == hs && [hs[0]][..0] == [];
    }
  }

  /** A list is accepted exactly when it has at most 32 headers of at most 4096 bytes in all, each with a legal name
      that is not reserved and a legal value, and no name twice. Too many headers are a limit error whatever
      else is wrong; too many bytes are one only if nothing else is. */
  lemma AcceptedExactly(hs: seq<Header>)
    ensures var legal :=
              && (forall h :: h in hs ==> IsHeaderName(h.name) && IsHeaderValue(h.value) && !Reserved(h.name))
              && (forall i, j :: 0 <= i < j < |hs| ==> hs[i].name != hs[j].name);
            && (Canonical(hs).Accepted? <==> |hs| <= 32 && legal && |Written(hs)| <= 4096)
            && (Canonical(hs) == Refused(BadHeader) <==> |hs| <= 32 && !legal)
            && (Canonical(hs) == Refused(Limit) <==> |hs| > 32 || (legal && |Written(hs)| > 4096))
  {
    hide IsHeaderName, IsHeaderValue, Reserved, Sorted, Written, TotalBytes;
    TotalIsTheLength(hs);
    assert forall i :: 0 <= i < |hs| ==> NameOf(hs[i]) == hs[i].name;
  }

  // ----- The configuration's own check -----

  /** `validate_header` */
  predicate ValidateHeader(key: Text, value: Text) {
    var validKey :=
      && key != [] && |key| <= 32
      && (forall i :: 0 <= i < |key| ==> IsLower(key[i]) || IsDigit(key[i]) || (i > 0 && key[i] == HYPHEN))
      && IsAlphanumeric(key[0]) && IsAlphanumeric(key[|key| - 1]);
    var validValue :=
      && value != [] && |value| <= 256 && (forall b :: b in value ==> 0x20 <= b <= 0x7e)
      && value[0] != SPACE && value[|value| - 1] != SPACE;
    validKey && validValue && !Reserved(Lowercase(key))
  }

  lemma ConfigAndProtocolAgree(h: Header)
    ensures ValidateHeader(h.name, h.value) <==> Admissible(h)
  {
    if IsHeaderName(h.name) {
      LowercaseKeepsNames(h.name);
      assert forall i :: 0 <= i < |h.name| ==> h.name[i] in h.name;
    }
  }

  /**
   * The header part of `AppConfig::validate`. The configuration keeps its headers in a map sorted by
   * name, which is the one thing this asks of its argument. What it accepts is exactly what
   * `canonical_headers` leaves as it is.
   */
  method ValidateConfigHeaders(headers: seq<Header>) returns (ok: bool)
    requires Increasing(headers, NameOf)
    ensures ok <==> Canonical(headers) == Accepted(headers)
  {
    hide Canonical, IsHeaderName, IsHeaderValue, ValidateHeader, Admissible, Increasing;
    FixedPointsExactly(headers);
    for k := 0 to |headers|
      invariant forall h :: h in headers[..k] ==> Admissible(h)
    {
      ConfigAndProtocolAgree(headers[k]);
      assert headers[k] in headers && headers[..k + 1] == headers[..k] + [headers[k]];
      if !ValidateHeader(headers[k].name, headers[k].value) {
        return false;
      }
    }
    assert headers[..|headers|] == headers;
    if |headers| > MAX_HEADERS {
      return false;
    }
    var headerBytes := 0;
    for k := 0 to |headers|
      invariant headerBytes == TotalBytes(headers[..k])
    {
      assert headers[..k + 1][..k] == headers[..k];
      headerBytes := headerBytes + |headers[k].name| + |headers[k].value|;
    }
    return headerBytes <= MAX_HEADER_BYTES;
  }
}

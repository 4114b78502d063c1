// The byte string that a request digest hashes (src/server.rs). The hash itself is taken to be free of collisions.

module Digest {
  import opened Common
  import opened Framing
  import opened Ordering
  import opened Protocol

  /** "RemoteOpenPower/request-digest/v1" and a zero byte. */
  const DOMAIN: Text := [
    82, 101, 109, 111, 116, 101, 79, 112, 101, 110, 80, 111, 119, 101, 114, 47, 114, 101, 113, 117, 101, 115, 116,
    45, 100, 105, 103, 101, 115, 116, 47, 118, 49, 0]

  const WAKE: Text := [119, 97, 107, 101]

  function U64Bytes(n: nat): Text
    requires n <= U64_MAX
  {
    U32Bytes(n / 0x1_0000_0000) + U32Bytes(n % 0x1_0000_0000)
  }

  /** `hash_bytes`: the length as a truncated 32-bit number, then the bytes. */
  function Field(f: Text): Text {
    U32Bytes(|f| % 0x1_0000_0000) + f
  }

  function Fields(fs: seq<Text>): Text {
    if fs == [] then [] else Fields(fs[..|fs| - 1]) + Field(fs[|fs| - 1])
  }

  function HeaderFields(hs: seq<Header>): seq<Text> {
    if hs == [] then [] else HeaderFields(hs[..|hs| - 1]) + [hs[|hs| - 1].name, hs[|hs| - 1].value]
  }

  function NonceBytes(nonce: Option<Text>): Text {
    match nonce
    case Some(bytes) => [1] + bytes
    case None => [0]
  }

  function DigestInput(hs: seq<Header>, tag: Text, catalogVersion: nat, ids: seq<Text>, nonce: Option<Text>): Text
    requires catalogVersion <= U64_MAX
  {
    DOMAIN + (tag + [0] + (U64Bytes(catalogVersion) + (NonceBytes(nonce) + Fields(HeaderFields(hs) + ids))))
  }

  function Prefix(tag: Text, catalogVersion: nat, nonce: Option<Text>): Text
    requires catalogVersion <= U64_MAX
  {
    DOMAIN + tag + [0] + U64Bytes(catalogVersion) + NonceBytes(nonce)
  }

  /** The fixed parts of the input. */
  lemma FixedParts()
    ensures DOMAIN == Ascii("RemoteOpenPower/request-digest/v1") + [0] && WAKE == Ascii("wake")
    ensures NonceBytes(None) == [0]
  {
  }

  /** Small numbers, big end first. */
  lemma SmallNumbers(n: byte, f: Text)
    requires |f| < 0x100
    ensures U64Bytes(n as nat) == [0, 0, 0, 0, 0, 0, 0, n] && Field(f) == [0, 0, 0, |f| as byte] + f
  {
    U32RoundTrip(0, []);
    U32RoundTrip(n as nat, []);
    U32RoundTrip(|f|, []);
  }

  lemma ThreeFields(name: Text, value: Text, id: Text)
    ensures Fields(HeaderFields([Header(name, value)]) + [id]) == Field(name) + Field(value) + Field(id)
  {
    hide Field;
    assert HeaderFields([Header(name, value)]) == [name, value];
    var fields := [name, value, id];
    assert [name, value] + [id] == fields && fields[..2] == [name, value] && [name, value][..1] == [name];
    assert Fields([name]) == Field(name);
  }

  /** The input for one header and one host, written out for small sizes. */
  lemma SmallInput(name: Text, value: Text, tag: Text, catalogVersion: byte, id: Text, nonce: Text)
    requires |name| < 0x100 && |value| < 0x100 && |id| < 0x100
    ensures DigestInput([Header(name, value)], tag, catalogVersion as nat, [id], Some(nonce)) ==
            DOMAIN + tag + [0] + [0, 0, 0, 0, 0, 0, 0, catalogVersion] + ([1] + nonce) +
            (([0, 0, 0, |name| as byte] + name) + ([0, 0, 0, |value| as byte] + value) +
             ([0, 0, 0, |id| as byte] + id))
  {
    SmallNumbers(catalogVersion, name);
    SmallNumbers(catalogVersion, value);
    SmallNumbers(catalogVersion, id);
    ThreeFields(name, value, id);
    InputStartsWithPrefix([Header(name, value)], tag, catalogVersion as nat, [id], Some(nonce));
    hide U64Bytes, Field, Fields, HeaderFields, DigestInput;
  }

  lemma InputStartsWithPrefix(hs: seq<Header>, tag: Text, catalogVersion: nat, ids: seq<Text>, nonce: Option<Text>)
    requires catalogVersion <= U64_MAX
    ensures DigestInput(hs, tag, catalogVersion, ids, nonce) ==
            Prefix(tag, catalogVersion, nonce) + Fields(HeaderFields(hs) + ids)
  {
    hide U64Bytes, NonceBytes, Fields, HeaderFields;
  }

  lemma OneMoreField(fs: seq<Text>, f: Text)
    ensures Fields(fs + [f]) == Fields(fs) + Field(f)
  {
    assert (fs + [f])[..|fs|] == fs;
  }

  lemma OneMoreHeader(hs: seq<Header>, k: nat)
    requires k < |hs|
    ensures Fields(HeaderFields(hs[..k + 1])) == Fields(HeaderFields(hs[..k])) + Field(hs[k].name) + Field(hs[k].value)
  {
    hide Field, Fields;
    var before := HeaderFields(hs[..k]);
    assert hs[..k + 1][..k] == hs[..k];
    assert HeaderFields(hs[..k + 1]) == before + [hs[k].name] + [hs[k].value];
    OneMoreField(before, hs[k].name);
    OneMoreField(before + [hs[k].name], hs[k].value);
  }

  lemma OneMoreHost(fs: seq<Text>, ids: seq<Text>, k: nat)
    requires k < |ids|
    ensures Fields(fs + ids[..k + 1]) == Fields(fs + ids[..k]) + Field(ids[k])
  {
    OneMoreField(fs + ids[..k], ids[k]);
    assert fs + ids[..k] + [ids[k]] == fs + ids[..k + 1];
  }

  /** `request_digest_context` up to the hash: what the hasher has been fed when it is finalized. */
  method RequestDigestContext(hs: seq<Header>, tag: Text, catalogVersion: nat, ids: seq<Text>, nonce: Option<Text>)
    returns (input: Text)
    requires catalogVersion <= U64_MAX
    ensures input == DigestInput(hs, tag, catalogVersion, ids, nonce)
  {
    hide U64Bytes, Field, Fields, HeaderFields, DigestInput;
    input := DOMAIN;
    input := input + tag;
    input := input + [0];
    input := input + U64Bytes(catalogVersion);
    match nonce {
      case Some(bytes) =>
        ghost var before := input;
        input := input + [1];
        input := input + bytes;
        assert input == before + NonceBytes(nonce);
      case None =>
        input := input + [0];
    }
    ghost var prefix := input;
    assert prefix == Prefix(tag, catalogVersion, nonce);
    hide Prefix, NonceBytes;
    NothingYet(hs, ids);
    for k := 0 to |hs|
      invariant input == prefix + Fields(HeaderFields(hs[..k]))
    {
      OneMoreHeader(hs, k);
      Regroup(prefix, Fields(HeaderFields(hs[..k])), Field(hs[k].name), Field(hs[k].value));
      input := input + Field(hs[k].name);
      input := input + Field(hs[k].value);
    }
    assert hs[..|hs|] == hs;
    for k := 0 to |ids|
      invariant input == prefix + Fields(HeaderFields(hs) + ids[..k])
    {
      OneMoreHost(HeaderFields(hs), ids, k);
      Regroup(prefix, Fields(HeaderFields(hs) + ids[..k]), Field(ids[k]), []);
      input := input + Field(ids[k]);
    }
    assert ids[..|ids|] == ids;
    InputStartsWithPrefix(hs, tag, catalogVersion, ids, nonce);
  }

  lemma Regroup(a: Text, b: Text, c: Text, d: Text)
    ensures a + b + c + d == a + (b + c + d)
    ensures d == [] ==> a + b + c == a + (b + c)
  {
  }

  lemma NothingYet(hs: seq<Header>, ids: seq<Text>)
    ensures Fields(HeaderFields(hs[..0])) == [] && HeaderFields(hs) + ids[..0] == HeaderFields(hs)
  {
  }

  // ----- Reading the string back -----

  predicate Short(fs: seq<Text>) {
    forall f :: f in fs ==> |f| < 0x1_0000_0000
  }

  lemma {:induction false} FieldsFromTheFront(fs: seq<Text>)
    requires fs != []
    ensures Fields(fs) == Field(fs[0]) + Fields(fs[1..])
  {
    hide Field;
    if |fs| == 1 {
      assert fs[..0] == [] && fs[1..] == [];
    } else {
      FieldsFromTheFront(fs[..|fs| - 1]);
      assert fs[..|fs| - 1][1..] == fs[1..][..|fs| - 2];
    }
  }

  lemma FieldShape(f: Text, a: Text)
    requires |f| < 0x1_0000_0000
    ensures Field(f) + a == U32Bytes(|f|) + (f + a) && |U32Bytes(|f|)| == 4
    ensures U32FromBytes(Field(f) + a) == |f|
  {
    assert Field(f) + a == U32Bytes(|f|) + (f + a);
    U32RoundTrip(|f|, f + a);
  }

  lemma FieldIsReadable(f: Text, g: Text, a: Text, b: Text)
    requires |f| < 0x1_0000_0000 && |g| < 0x1_0000_0000
    requires Field(f) + a == Field(g) + b
    ensures f == g && a == b
  {
    hide U32Bytes, U32FromBytes, Field;
    FieldShape(f, a);
    FieldShape(g, b);
    Split(U32Bytes(|f|), U32Bytes(|g|), f + a, g + b);
    Split(f, g, a, b);
  }

  lemma Split(a: Text, b: Text, c: Text, d: Text)
    requires |a| == |b| && a + c == b + d
    ensures a == b && c == d
  {
    assert a == (a + c)[..|a|] && b == (b + d)[..|b|];
    assert c == (a + c)[|a|..] && d == (b + d)[|b|..];
  }

  lemma {:induction false} FieldsAreReadable(fs: seq<Text>, gs: seq<Text>)
    requires Short(fs) && Short(gs) && Fields(fs) == Fields(gs)
    ensures fs == gs
  {
    hide Field;
    if fs == [] || gs == [] {
      NonEmptyFields(fs);
      NonEmptyFields(gs);
    } else {
      FieldsFromTheFront(fs);
      FieldsFromTheFront(gs);
      FieldIsReadable(fs[0], gs[0], Fields(fs[1..]), Fields(gs[1..]));
      FieldsAreReadable(fs[1..], gs[1..]);
      assert fs == [fs[0]] + fs[1..] && gs == [gs[0]] + gs[1..];
    }
  }

  lemma NonEmptyFields(fs: seq<Text>)
    ensures fs != [] <==> Fields(fs) != []
  {
  }

  predicate ZeroFree(tag: Text) { forall b :: b in tag ==> b != 0 }

  lemma TagIsReadable(tag: Text, other: Text, a: Text, b: Text)
    requires ZeroFree(tag) && ZeroFree(other) && tag + [0] + a == other + [0] + b
    ensures tag == other && a == b
  {
    var whole := tag + [0] + a;
    forall i | 0 <= i < |tag|
      ensures whole[i] != 0
    {
      assert tag[i] in tag;
    }
    forall i | 0 <= i < |other|
      ensures whole[i] != 0
    {
      assert whole[i] == other[i] && other[i] in other;
    }
    assert whole[|tag|] == 0 && whole[|other|] == 0;
    Split(tag + [0], other + [0], a, b);
    Split(tag, other, [0], [0]);
  }

  lemma U64IsReadable(m: nat, n: nat, a: Text, b: Text)
    requires m <= U64_MAX && n <= U64_MAX && U64Bytes(m) + a == U64Bytes(n) + b
    ensures m == n && a == b
  {
    var mh, ml, nh, nl := m / 0x1_0000_0000, m % 0x1_0000_0000, n / 0x1_0000_0000, n % 0x1_0000_0000;
    assert U64Bytes(m) + a == U32Bytes(mh) + (U32Bytes(ml) + a);
    assert U64Bytes(n) + b == U32Bytes(nh) + (U32Bytes(nl) + b);
    U32RoundTrip(mh, U32Bytes(ml) + a);
    U32RoundTrip(nh, U32Bytes(nl) + b);
    Split(U32Bytes(mh), U32Bytes(nh), U32Bytes(ml) + a, U32Bytes(nl) + b);
    U32RoundTrip(ml, a);
    U32RoundTrip(nl, b);
    Split(U32Bytes(ml), U32Bytes(nl), a, b);
  }

  /** The 16 random bytes of the server's start. */
  predicate IsNonce(nonce: Option<Text>) { nonce.Some? ==> |nonce.value| == 16 }

  lemma NonceIsReadable(m: Option<Text>, n: Option<Text>, a: Text, b: Text)
    requires IsNonce(m) && IsNonce(n) && NonceBytes(m) + a == NonceBytes(n) + b
    ensures m == n && a == b
  {
    assert (NonceBytes(m) + a)[0] == NonceBytes(m)[0] && (NonceBytes(n) + b)[0] == NonceBytes(n)[0];
    Split(NonceBytes(m), NonceBytes(n), a, b);
    if m.Some? {
      assert m.value == NonceBytes(m)[1..] && n.value == NonceBytes(n)[1..];
    }
  }

  // ----- What a digest stands for -----

  /** The parts of a request that its digest covers. */
  datatype Content = Content(headers: seq<Header>, tag: Text, catalogVersion: nat, ids: seq<Text>, nonce: Option<Text>)

  function AllFields(c: Content): seq<Text> { HeaderFields(c.headers) + c.ids }

  /** Every content the server digests: its three tags have no zero byte and a string never reaches 4 GiB. */
  predicate WellFormed(c: Content) {
    ZeroFree(c.tag) && c.catalogVersion <= U64_MAX && IsNonce(c.nonce) && Short(AllFields(c))
  }

  function Input(c: Content): Text
    requires WellFormed(c)
  {
    DigestInput(c.headers, c.tag, c.catalogVersion, c.ids, c.nonce)
  }

  /** Two contents are fed alike exactly when they differ at most in where the headers end and the hosts begin. */
  lemma FedAlikeExactly(c: Content, d: Content)
    requires WellFormed(c) && WellFormed(d)
    ensures Input(c) == Input(d) <==>
            c.tag == d.tag && c.catalogVersion == d.catalogVersion && c.nonce == d.nonce && AllFields(c) == AllFields(d)
  {
    hide Fields, U64Bytes, NonceBytes, HeaderFields, Short, ZeroFree;
    if Input(c) == Input(d) {
      var cn, dn := NonceBytes(c.nonce) + Fields(AllFields(c)), NonceBytes(d.nonce) + Fields(AllFields(d));
      var cv, dv := U64Bytes(c.catalogVersion) + cn, U64Bytes(d.catalogVersion) + dn;
      Split(DOMAIN, DOMAIN, c.tag + [0] + cv, d.tag + [0] + dv);
      TagIsReadable(c.tag, d.tag, cv, dv);
      U64IsReadable(c.catalogVersion, d.catalogVersion, cn, dn);
      NonceIsReadable(c.nonce, d.nonce, Fields(AllFields(c)), Fields(AllFields(d)));
      FieldsAreReadable(AllFields(c), AllFields(d));
    }
  }

  lemma {:induction false} HeaderFieldsAreReadable(hs: seq<Header>, gs: seq<Header>, ids: seq<Text>, others: seq<Text>)
    requires |hs| == |gs| && HeaderFields(hs) + ids == HeaderFields(gs) + others
    ensures hs == gs && ids == others
  {
    if hs != [] {
      var k := |hs| - 1;
      var last, final := [hs[k].name, hs[k].value], [gs[k].name, gs[k].value];
      assert HeaderFields(hs[..k]) + (last + ids) == HeaderFields(hs) + ids;
      assert HeaderFields(gs[..k]) + (final + others) == HeaderFields(gs) + others;
      HeaderFieldsAreReadable(hs[..k], gs[..k], last + ids, final + others);
      assert (last + ids)[0] == (final + others)[0] && (last + ids)[1] == (final + others)[1];
      assert ids == (last + ids)[2..] && others == (final + others)[2..];
      assert hs == hs[..k] + [hs[k]] && gs == gs[..k] + [gs[k]];
    } else {
      assert [] + ids == ids && [] + others == others;
    }
  }

  /** Under one header list, as a server has, the digest input tells any two contents apart. */
  lemma DigestInputIsInjective(c: Content, d: Content)
    requires WellFormed(c) && WellFormed(d) && |c.headers| == |d.headers|
    ensures Input(c) == Input(d) <==> c == d
  {
    FedAlikeExactly(c, d);
    if Input(c) == Input(d) {
      HeaderFieldsAreReadable(c.headers, d.headers, c.ids, d.ids);
    }
  }

  /** With header lists of different lengths it does not: a header reads like two host ids. */
  lemma HeadersCanReadLikeHosts(catalogVersion: nat, nonce: Text)
    requires catalogVersion <= U64_MAX && |nonce| == 16
    ensures exists c, d ::
              c != d && WellFormed(c) && WellFormed(d) && Input(c) == Input(d) &&
              c.catalogVersion == d.catalogVersion == catalogVersion
  {
    var c := Content([Header([97], [98])], WAKE, catalogVersion, [[99]], Some(nonce));
    var d := Content([], WAKE, catalogVersion, [[97], [98], [99]], Some(nonce));
    assert HeaderFields(c.headers) == [[97], [98]] by {
      assert c.headers[..0] == [];
    }
    assert AllFields(c) == AllFields(d) == [[97], [98], [99]];
    FedAlikeExactly(c, d);
    assert c.headers != d.headers;
  }

  // ----- Wake requests -----

  /** What the wake branch digests: the target ids are sorted first. */
  function WakeContent(hs: seq<Header>, catalogVersion: nat, ids: seq<Text>, nonce: Text): Content {
    Content(hs, WAKE, catalogVersion, Sorted(ids, Itself), Some(nonce))
  }

  lemma SortedHasTheIds(ids: seq<Text>)
    ensures forall id :: id in Sorted(ids, Itself) <==> id in ids
  {
    SortedIsAnAscendingPermutation(ids, Itself);
    forall id
      ensures id in Sorted(ids, Itself) <==> id in ids
    {
      SameElements(ids, Sorted(ids, Itself), id);
    }
  }

  /**
   * Two accepted wake requests have one digest exactly when they agree on the catalog version, the
   * nonce and the set of targets: repeating a request with its targets in another order is a repetition.
   */
  lemma WakeDigestIsTheTargetSet(hs: seq<Header>, v: nat, w: nat, ids: seq<Text>, others: seq<Text>, n: Text, m: Text)
    requires WellFormed(WakeContent(hs, v, ids, n)) && WellFormed(WakeContent(hs, w, others, m))
    requires DistinctKeys(ids, Itself) && DistinctKeys(others, Itself)
    ensures Input(WakeContent(hs, v, ids, n)) == Input(WakeContent(hs, w, others, m)) <==>
            v == w && n == m && Elements(ids) == Elements(others)
  {
    hide WellFormed, Input, Sorted, DistinctKeys;
    DigestInputIsInjective(WakeContent(hs, v, ids, n), WakeContent(hs, w, others, m));
    SortedHasTheIds(ids);
    SortedHasTheIds(others);
    if Elements(ids) == Elements(others) {
      forall id
        ensures id in ids <==> id in others
      {
        assert id in Elements(ids) <==> id in Elements(others);
      }
      SortForgetsOrder(ids, others, Itself);
    }
  }
}

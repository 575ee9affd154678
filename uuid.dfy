/**
 * Dedup-key derivation (src/Support/Uuid.php): validation of the textual
 * form, random (version 4) and name-based SHA-1 (version 5) identifiers as
 * in sections 4.1.1, 4.1.3, 4.3 and 4.4 of RFC 4122, the byte/text
 * conversions, and normalize, which passes well-formed identifiers through
 * and hashes everything else.
 */
module Uuid {
  import opened Common
  import opened PhpStrings
  import opened Primitives

  /** The DNS namespace identifier of section C of RFC 4122. */
  const NamespaceDns: string := "6ba7b810-9dad-11d1-80b4-00c04fd430c8"

  const InvalidNamespace := Throwable(InvalidArgument, "Invalid UUID namespace.")
  const InvalidUuid := Throwable(InvalidArgument, "Invalid UUID.")
  const InvalidUuidBytes := Throwable(InvalidArgument, "Invalid UUID bytes.")

  predicate IsHexDigit(c: char) { '0' <= c <= '9' || 'a' <= c <= 'f' || 'A' <= c <= 'F' }

  predicate IsDashPosition(i: int) { i == 8 || i == 13 || i == 18 || i == 23 }

  /**
   * The pattern
   * /^[0-9a-fA-F]{8}-[0-9a-fA-F]{4}-[1-5][0-9a-fA-F]{3}-[89abAB][0-9a-fA-F]{3}-[0-9a-fA-F]{12}$/
   * on an already trimmed string (so '$' cannot match before a final newline).
   */
  predicate MatchesPattern(v: string) {
    && |v| == 36
    && (forall i | 0 <= i < 36 :: if IsDashPosition(i) then v[i] == '-' else IsHexDigit(v[i]))
    && '1' <= v[14] <= '5'
    && (v[19] == '8' || v[19] == '9' || v[19] == 'a' || v[19] == 'b' || v[19] == 'A' || v[19] == 'B')
  }

  /** Uuid::isUuid */
  predicate IsUuid(value: string) {
    var v := Trim(value);
    v != "" && MatchesPattern(v)
  }

  function HexChar(n: int): (c: char)
    requires 0 <= n < 16
    ensures IsLowerHexDigit(c)
  {
    "0123456789abcdef"[n]
  }

  function HexValue(c: char): (n: int)
    requires IsHexDigit(c)
    ensures 0 <= n < 16
  {
    if '0' <= c <= '9' then c as int - '0' as int
    else if 'a' <= c <= 'f' then c as int - 'a' as int + 10
    else c as int - 'A' as int + 10
  }

  lemma HexValueOfHexChar(n: int)
    requires 0 <= n < 16
    ensures HexValue(HexChar(n)) == n
  {
  }

  lemma HexCharOfHexValue(c: char)
    requires IsHexDigit(c)
    ensures HexChar(HexValue(c)) == LowerChar(c)
  {
  }

  /** bin2hex($bytes): two lower-case hex digits per byte, high nibble first. */
  function Bin2Hex(b: Bytes): (h: string)
    ensures |h| == 2 * |b|
    ensures forall i | 0 <= i < |h| :: IsLowerHexDigit(h[i])
  {
    seq(2 * |b|, i requires 0 <= i < 2 * |b| =>
      if i % 2 == 0 then HexChar(b[i / 2] as int / 16) else HexChar(b[i / 2] as int % 16))
  }

  predicate AllHex(h: string) { forall i | 0 <= i < |h| :: IsHexDigit(h[i]) }

  /** hex2bin($hex): None where PHP returns false (odd length or a non-hex digit). */
  function Hex2Bin(h: string): (r: Option<Bytes>)
    ensures r.Some? <==> |h| % 2 == 0 && AllHex(h)
    ensures r.Some? ==> |r.value| == |h| / 2
  {
    if |h| % 2 != 0 || !AllHex(h) then None
    else Some(seq(|h| / 2, i requires 0 <= i < |h| / 2 =>
      (HexValue(h[2 * i]) * 16 + HexValue(h[2 * i + 1])) as char))
  }

  /** str_replace('-', '', $s) */
  function RemoveDashes(s: string): (r: string)
    ensures |r| <= |s|
  {
    if s == [] then [] else (if s[0] == '-' then [] else [s[0]]) + RemoveDashes(s[1..])
  }

  lemma {:induction false} RemoveDashesConcat(a: string, b: string)
    ensures RemoveDashes(a + b) == RemoveDashes(a) + RemoveDashes(b)
  {
    if a != [] {
      var ab := a + b;
      assert ab[0] == a[0];
      assert ab[1..] == a[1..] + b;
      RemoveDashesConcat(a[1..], b);
      var head := if a[0] == '-' then [] else [a[0]];
      calc {
        RemoveDashes(ab);
        head + RemoveDashes(a[1..] + b);
        head + (RemoveDashes(a[1..]) + RemoveDashes(b));
        (head + RemoveDashes(a[1..])) + RemoveDashes(b);
      }
    } else {
      assert a + b == b;
    }
  }

  lemma {:induction false} RemoveDashesNoDash(s: string)
    requires NoDash(s)
    ensures RemoveDashes(s) == s
  {
    if s != [] {
      RemoveDashesNoDash(s[1..]);
    }
  }

  predicate NoDash(s: string) { forall i | 0 <= i < |s| :: s[i] != '-' }

  /** Removing the dash after a dash-free prefix keeps the prefix. */
  lemma RemoveDashesAfterGroup(front: string, group: string)
    requires NoDash(group)
    ensures RemoveDashes(front + "-" + group) == RemoveDashes(front) + group
  {
    assert RemoveDashes(front + "-") == RemoveDashes(front) by {
      RemoveDashesConcat(front, "-");
      assert RemoveDashes("-") == [];
    }
    assert RemoveDashes(group) == group by {
      RemoveDashesNoDash(group);
    }
    RemoveDashesConcat(front + "-", group);
  }

  /** The 8-4-4-4-12 shape with its dashes taken out is the 32 other characters, in order. */
  lemma RemoveDashesOfDashed(u: string)
    requires |u| == 36
    requires forall i | 0 <= i < 36 :: (u[i] == '-' <==> IsDashPosition(i))
    ensures RemoveDashes(u) == u[0..8] + u[9..13] + u[14..18] + u[19..23] + u[24..36]
  {
    var p0, p1, p2, p3, p4 := u[0..8], u[9..13], u[14..18], u[19..23], u[24..36];
    assert NoDash(p0) && NoDash(p1) && NoDash(p2) && NoDash(p3) && NoDash(p4) by {
      assert forall i | 0 <= i < 36 :: !IsDashPosition(i) ==> u[i] != '-';
    }
    var q1 := p0 + "-" + p1;
    var q2 := q1 + "-" + p2;
    var q3 := q2 + "-" + p3;
    assert u == q3 + "-" + p4 by {
      assert u == u[..35 - 11] + u[24..];
      assert u[..24] == u[..19] + u[19..24];
      assert u[..19] == u[..14] + u[14..19];
      assert u[..14] == u[..9] + u[9..14];
      assert u[..9] == u[..8] + u[8..9];
      assert u[8..9] == "-" && u[13..14] == "-" && u[18..19] == "-" && u[23..24] == "-";
      assert u[9..14] == p1 + "-" && u[14..19] == p2 + "-" && u[19..24] == p3 + "-";
    }
    assert RemoveDashes(p0) == p0 by {
      RemoveDashesNoDash(p0);
    }
    RemoveDashesAfterGroup(p0, p1);
    RemoveDashesAfterGroup(q1, p2);
    RemoveDashesAfterGroup(q2, p3);
    RemoveDashesAfterGroup(q3, p4);
  }

  /** Uuid::bytesToUuid */
  function BytesToUuid(bytes: Bytes): (r: Result<string>)
    ensures r.Ok? <==> |bytes| == 16
    ensures r.Err? ==> r.error == InvalidUuidBytes
  {
    if |bytes| != 16 then Err(InvalidUuidBytes)
    else
      var hex := Bin2Hex(bytes);
      Ok(hex[0..8] + "-" + hex[8..12] + "-" + hex[12..16] + "-" + hex[16..20] + "-" + hex[20..32])
  }

  /** Where the hex digit shown at position i of the 8-4-4-4-12 form comes from. */
  function HexIndex(i: int): int {
    if i < 8 then i else if i < 13 then i - 1 else if i < 18 then i - 2 else if i < 23 then i - 3 else i - 4
  }

  /** The position in the 8-4-4-4-12 form that shows hex digit j. */
  function DashedIndex(j: int): (i: int)
    ensures 0 <= j < 32 ==> 0 <= i < 36 && !IsDashPosition(i) && HexIndex(i) == j
  {
    if j < 8 then j else if j < 12 then j + 1 else if j < 16 then j + 2 else if j < 20 then j + 3 else j + 4
  }

  /** bytesToUuid lays the 32 hex digits of its input out as 8-4-4-4-12, in order. */
  lemma BytesToUuidLayout(bytes: Bytes)
    requires |bytes| == 16
    ensures var u := BytesToUuid(bytes).value; var hex := Bin2Hex(bytes);
      && |u| == 36
      && forall i | 0 <= i < 36 :: u[i] == if IsDashPosition(i) then '-' else hex[HexIndex(i)]
  {
    var u := BytesToUuid(bytes).value;
    var hex := Bin2Hex(bytes);
    var p0, p1, p2, p3, p4 := hex[0..8], hex[8..12], hex[12..16], hex[16..20], hex[20..32];
    assert u == p0 + "-" + p1 + "-" + p2 + "-" + p3 + "-" + p4;
    forall i | 0 <= i < 36
      ensures u[i] == if IsDashPosition(i) then '-' else hex[HexIndex(i)]
    {
      if i < 8 { assert u[i] == p0[i]; }
      else if i == 8 { }
      else if i < 13 { assert u[i] == p1[i - 9]; }
      else if i == 13 { }
      else if i < 18 { assert u[i] == p2[i - 14]; }
      else if i == 18 { }
      else if i < 23 { assert u[i] == p3[i - 19]; }
      else if i == 23 { }
      else { assert u[i] == p4[i - 24]; }
    }
  }

  /** Uuid::uuidToBytes */
  function UuidToBytes(uuid: string): (r: Result<Bytes>)
    ensures r.Ok? ==> |r.value| == 16
    ensures r.Err? ==> r.error == InvalidUuid
  {
    var hex := RemoveDashes(Lower(uuid));
    if |hex| != 32 then Err(InvalidUuid)
    else
      match Hex2Bin(hex)
      case None => Err(InvalidUuid)
      case Some(bin) => if |bin| != 16 then Err(InvalidUuid) else Ok(bin)
  }

  /** The two hex digits bin2hex writes for a byte read back as that byte. */
  lemma HexPairDecodes(x: int)
    requires 0 <= x < 256
    ensures HexValue(HexChar(x / 16)) * 16 + HexValue(HexChar(x % 16)) == x
  {
    HexValueOfHexChar(x / 16);
    HexValueOfHexChar(x % 16);
  }

  lemma Bin2HexAllHex(b: Bytes)
    ensures AllHex(Bin2Hex(b))
  {
  }

  lemma Bin2HexAt(b: Bytes, i: int)
    requires 0 <= i < |b|
    ensures Bin2Hex(b)[2 * i] == HexChar(b[i] as int / 16) && Bin2Hex(b)[2 * i + 1] == HexChar(b[i] as int % 16)
  {
  }

  lemma {:induction false} Hex2BinOfBin2Hex(b: Bytes)
    ensures Hex2Bin(Bin2Hex(b)) == Some(b)
  {
    var h := Bin2Hex(b);
    Bin2HexAllHex(b);
    var r := Hex2Bin(h).value;
    forall i | 0 <= i < |b| ensures r[i] == b[i] {
      Bin2HexAt(b, i);
      HexPairDecodes(b[i] as int);
    }
    assert r == b;
  }

  /** uuidToBytes undoes bytesToUuid. */
  lemma UuidToBytesInvertsBytesToUuid(bytes: Bytes)
    requires |bytes| == 16
    ensures UuidToBytes(BytesToUuid(bytes).value) == Ok(bytes)
  {
    var hex := Bin2Hex(bytes);
    var u := BytesToUuid(bytes).value;
    BytesToUuidLayout(bytes);
    forall i | 0 <= i < 36
      ensures Lower(u)[i] == u[i] && (u[i] == '-' <==> IsDashPosition(i))
    {
      if !IsDashPosition(i) {
        assert IsLowerHexDigit(hex[HexIndex(i)]);
      }
    }
    assert Lower(u) == u;
    RemoveDashesOfDashed(u);
    var plain := RemoveDashes(u);
    forall j | 0 <= j < 32 ensures plain[j] == hex[j] {
      assert plain[j] == u[DashedIndex(j)];
    }
    assert plain == hex;
    Hex2BinOfBin2Hex(bytes);
  }

  /** (ord($b) & 0x0f) | ($version << 4): keep the low nibble, set the version nibble. */
  function WithVersion(b: Byte, version: int): (r: Byte)
    requires 0 <= version < 16
    ensures r as int / 16 == version
  {
    (b as int % 16 + version * 16) as char
  }

  /** (ord($b) & 0x3f) | 0x80: the two high bits become 10, the RFC 4122 variant. */
  function WithVariant(b: Byte): (r: Byte)
    ensures 8 <= r as int / 16 <= 11
  {
    (b as int % 64 + 0x80) as char
  }

  lemma MaskLowNibble(x: bv8)
    ensures (x & 0x0f) as int == x as int % 16
  {
  }

  lemma MaskLowSix(x: bv8)
    ensures (x & 0x3f) as int == x as int % 64
  {
  }

  lemma SetHighBits(x: bv8, high: bv8)
    requires high == 0x40 || high == 0x50 || high == 0x80
    requires x as int < if high == 0x80 then 64 else 16
    ensures (x | high) as int == x as int + high as int
  {
  }

  /** The arithmetic above is exactly the bit masking the source performs on ord($b). */
  lemma StampsAreBitMasks(x: bv8)
    ensures WithVersion(x as int as char, 4) as int == ((x & 0x0f) | 0x40) as int
    ensures WithVersion(x as int as char, 5) as int == ((x & 0x0f) | 0x50) as int
    ensures WithVariant(x as int as char) as int == ((x & 0x3f) | 0x80) as int
  {
    var lo4, lo6 := x & 0x0f, x & 0x3f;
    MaskLowNibble(x);
    MaskLowSix(x);
    SetHighBits(lo4, 0x40);
    SetHighBits(lo4, 0x50);
    SetHighBits(lo6, 0x80);
  }

  /** Bytes 6 and 8 after stamping the version and the variant. */
  function Stamp(bytes: Bytes, version: int): (r: Bytes)
    requires |bytes| == 16 && 0 <= version < 16
    ensures |r| == 16
  {
    bytes[6 := WithVersion(bytes[6], version)][8 := WithVariant(bytes[8])]
  }

  /** bytesToUuid writes lower-case hex digits with dashes at the four dash positions. */
  lemma FormattedIsLowerHex(bytes: Bytes)
    requires |bytes| == 16
    ensures var u := BytesToUuid(bytes).value;
      && |u| == 36 && u == Lower(u)
      && forall i | 0 <= i < 36 :: if IsDashPosition(i) then u[i] == '-' else IsLowerHexDigit(u[i])
  {
    var u := BytesToUuid(bytes).value;
    var hex := Bin2Hex(bytes);
    BytesToUuidLayout(bytes);
    forall i | 0 <= i < 36
      ensures (if IsDashPosition(i) then u[i] == '-' else IsLowerHexDigit(u[i])) && Lower(u)[i] == u[i]
    {
      if !IsDashPosition(i) {
        assert IsLowerHexDigit(hex[HexIndex(i)]);
      }
    }
  }

  /** The hex digits of a version (1 to 5) and of a variant nibble (8 to 11). */
  lemma HexCharRanges(version: int, variant: int)
    requires 1 <= version <= 5 && 8 <= variant <= 11
    ensures '1' <= HexChar(version) <= '5'
    ensures var c := HexChar(variant); c == '8' || c == '9' || c == 'a' || c == 'b'
  {
  }

  /** The text form of stamped bytes shows the version digit and an RFC 4122 variant digit. */
  lemma StampedIsUuid(bytes: Bytes, version: int)
    requires |bytes| == 16 && 1 <= version <= 5
    ensures var u := BytesToUuid(Stamp(bytes, version)).value;
      && IsUuid(u) && u == Lower(u) && u[14] == HexChar(version)
      && (u[19] == '8' || u[19] == '9' || u[19] == 'a' || u[19] == 'b')
  {
    var s := Stamp(bytes, version);
    var u := BytesToUuid(s).value;
    var hex := Bin2Hex(s);
    BytesToUuidLayout(s);
    FormattedIsLowerHex(s);
    assert u[14] == hex[12] == HexChar(s[6] as int / 16);
    assert u[19] == hex[16] == HexChar(s[8] as int / 16);
    HexCharRanges(version, s[8] as int / 16);
    assert forall i | 0 <= i < 36 :: if IsDashPosition(i) then u[i] == '-' else IsHexDigit(u[i]);
    assert MatchesPattern(u);
    assert u[0] != ' ' && u[35] != ' ';
    TrimOfTrimmed(u);
  }

  /** The identifier v4 and v5 build from 16 bytes: stamp version and variant, then format. */
  function StampedUuid(bytes: Bytes, version: int): (u: string)
    requires |bytes| == 16 && 1 <= version <= 5
    ensures IsUuid(u) && u[14] == HexChar(version)
  {
    StampedIsUuid(bytes, version);
    BytesToUuid(Stamp(bytes, version)).value
  }

  /** Uuid::v4, given the 16 bytes random_bytes(16) returned. */
  function V4(random: Bytes): (r: string)
    requires |random| == 16
    ensures IsUuid(r) && r[14] == '4'
  {
    assert HexChar(4) == '4';
    StampedUuid(random, 4)
  }

  /** Uuid::v5: SHA-1 of the namespace bytes followed by the name, cut to 16 bytes and stamped. */
  function V5(namespaceUuid: string, name: string, sha1: string -> Sha1Digest): (r: Result<string>)
    ensures r.Ok? <==> IsUuid(Lower(Trim(namespaceUuid)))
    ensures r.Ok? ==> IsUuid(r.value) && r.value[14] == '5'
    ensures r.Err? ==> r.error == InvalidNamespace
  {
    var ns := Lower(Trim(namespaceUuid));
    if !IsUuid(ns) then Err(InvalidNamespace)
    else
      LowerOfTrimmedIsTrimmed(namespaceUuid);
      NamespaceBytes(ns);
      var nsBytes: string := UuidToBytes(ns).value;
      var hash := sha1(nsBytes + name);
      assert HexChar(5) == '5';
      Ok(StampedUuid(hash[..16], 5))
  }

  /** A well-formed identifier always converts to bytes. */
  lemma NamespaceBytes(ns: string)
    requires IsUuid(ns) && Trim(ns) == ns
    ensures UuidToBytes(ns).Ok?
  {
    assert MatchesPattern(ns);
    var l := Lower(ns);
    assert forall i | 0 <= i < 36 :: (l[i] == '-' <==> IsDashPosition(i));
    RemoveDashesOfDashed(l);
    var hex := RemoveDashes(l);
    assert forall j | 0 <= j < 32 :: hex[j] == l[DashedIndex(j)];
    assert AllHex(hex);
  }

  lemma NamespaceDnsIsLowerCase()
    ensures Lower(NamespaceDns) == NamespaceDns
  {
  }

  lemma NamespaceDnsMatches()
    ensures IsTrimmedNonBlank(NamespaceDns) && MatchesPattern(NamespaceDns)
  {
  }

  /** A trimmed string matching the pattern is an identifier, and its own trim. */
  lemma TrimmedMatchIsUuid(s: string)
    requires IsTrimmedNonBlank(s) && MatchesPattern(s)
    ensures IsUuid(s) && Trim(s) == s
  {
    TrimOfTrimmed(s);
  }

  lemma NamespaceDnsIsUuid()
    ensures IsUuid(NamespaceDns) && Lower(Trim(NamespaceDns)) == NamespaceDns
  {
    NamespaceDnsMatches();
    TrimmedMatchIsUuid(NamespaceDns);
    NamespaceDnsIsLowerCase();
  }

  /** The name hashed by normalize: "salt|input", or the input alone when the salt is empty. */
  function NameFor(input: string, salt: string): string {
    if salt != "" then salt + "|" + input else input
  }

  /** Uuid::normalize */
  function Normalize(input: string, salt: string, sha1: string -> Sha1Digest): (r: string)
    ensures IsUuid(r)
  {
    var v := Lower(Trim(input));
    if v != "" && IsUuid(v) then v
    else
      NamespaceDnsIsUuid();
      V5(NamespaceDns, NameFor(input, salt), sha1).value
  }

  /** A well-formed identifier passes through normalize as its trimmed lower-case form. */
  lemma NormalizeKeepsWellFormed(input: string, salt: string, sha1: string -> Sha1Digest)
    requires IsUuid(input)
    ensures Normalize(input, salt, sha1) == Lower(Trim(input))
  {
    var t := Trim(input);
    var v := Lower(t);
    TrimIdempotent(input);
    assert MatchesPattern(t);
    assert MatchesPattern(v);
    assert v[0] == LowerChar(t[0]) && v[35] == LowerChar(t[35]);
    TrimOfTrimmed(v);
  }

  /** Hashing under the DNS namespace always succeeds. */
  lemma V5UnderDnsSucceeds(name: string, sha1: string -> Sha1Digest)
    ensures V5(NamespaceDns, name, sha1).Ok?
  {
    NamespaceDnsIsUuid();
  }

  /** Anything else is hashed under the DNS namespace, with the salt in front of the name. */
  lemma NormalizeHashesOthers(input: string, salt: string, sha1: string -> Sha1Digest)
    requires !IsUuid(Lower(Trim(input)))
    ensures V5(NamespaceDns, NameFor(input, salt), sha1).Ok?
    ensures Normalize(input, salt, sha1) == V5(NamespaceDns, NameFor(input, salt), sha1).value
  {
    V5UnderDnsSucceeds(NameFor(input, salt), sha1);
  }

  /** Different salts give different hashed names for the same input. */
  lemma {:induction false} SaltsSeparateNames(input: string, salt1: string, salt2: string)
    requires salt1 != salt2
    ensures NameFor(input, salt1) != NameFor(input, salt2)
  {
    var n1, n2 := NameFor(input, salt1), NameFor(input, salt2);
    if |n1| == |n2| {
      assert salt1 != "" && salt2 != "";
      assert |salt1| == |salt2|;
      var k :| 0 <= k < |salt1| && salt1[k] != salt2[k];
      assert n1[k] == salt1[k] && n2[k] == salt2[k];
    }
  }
}

/** The keys built from names, ids and versions: what the managers index their
    maps by and what the store is keyed by. */
module Names {
  import opened Words
  import opened Wrappers
  import opened Decimal

  // ---- names

  const SEP: char := 1 as char

  /** The literal set of ea/client/utility.cc: 'Q' stands there twice and 'W' never. */
  predicate AllowChar(c: char) {
    || c in {'a', 'b', 'c', 'd', 'e', 'f', 'g'}
    || c in {'h', 'i', 'j', 'k', 'l', 'm', 'n'}
    || c in {'o', 'p', 'q', 'r', 's', 't'}
    || c in {'u', 'v', 'w', 'x', 'y', 'z'}
    || c in {'0', '1', '2', '3', '4', '5', '6', '7', '8', '9'}
    || c in {'_'}
    || c in {'A', 'B', 'C', 'D', 'E', 'F', 'G'}
    || c in {'H', 'I', 'J', 'K', 'L', 'M', 'N'}
    || c in {'O', 'P', 'Q', 'R', 'S', 'T'}
    || c in {'U', 'V', 'Q', 'X', 'Y', 'Z'}
  }

  predicate ValidName(name: string) {
    forall i :: 0 <= i < |name| ==> AllowChar(name[i])
  }

  /** None is acceptance; otherwise the position of the first character refused. */
  method CheckValidNameType(name: string) returns (bad: Option<nat>)
    ensures bad.None? <==> ValidName(name)
    ensures bad.Some? ==> bad.value < |name| && !AllowChar(name[bad.value]) && ValidName(name[..bad.value])
  {
    var i := 0;
    while i < |name|
      invariant 0 <= i <= |name| && ValidName(name[..i])
    {
      if !AllowChar(name[i]) {
        return Some(i);
      }
      assert name[..i + 1] == name[..i] + [name[i]];
      i := i + 1;
    }
    assert name[..i] == name;
    bad := None;
  }

  /** The set the error message promises. */
  predicate Promised(c: char) {
    'a' <= c <= 'z' || 'A' <= c <= 'Z' || '0' <= c <= '9' || c == '_'
  }

  /** A promised character is accepted unless it is 'W', and no other one is. */
  lemma AcceptedCharacters(c: char)
    ensures AllowChar(c) <==> Promised(c) && c != 'W'
  {
    if Promised(c) && c != 'W' {
      assert 'a' <= c <= 'n' ==> AllowChar(c);
      assert 'o' <= c <= 'z' ==> AllowChar(c);
      assert '0' <= c <= '9' ==> AllowChar(c);
      assert 'A' <= c <= 'N' ==> AllowChar(c);
      assert 'O' <= c <= 'Z' ==> AllowChar(c);
    }
  }

  predicate Clean(name: string) {
    SEP !in name
  }

  lemma ValidNamesAreClean(name: string)
    requires ValidName(name)
    ensures Clean(name)
  {
    if SEP in name {
      var i :| 0 <= i < |name| && name[i] == SEP;
      AcceptedCharacters(name[i]);
    }
  }

  function MakeZoneKey(namespaceName: string, zone: string): string {
    namespaceName + [SEP] + zone
  }

  function MakeServletKey(zoneKey: string, servlet: string): string {
    zoneKey + [SEP] + servlet
  }

  /** Splitting at the first separator undoes the concatenation. */
  lemma {:induction false} SplitUnique(a: string, x: string, b: string, y: string)
    requires Clean(a) && Clean(b) && a + [SEP] + x == b + [SEP] + y
    ensures a == b && x == y
  {
    var s := a + [SEP] + x;
    assert s[|a|] == SEP && (b + [SEP] + y)[|b|] == SEP;
    assert forall i :: 0 <= i < |a| ==> s[i] == a[i];
    assert forall i :: 0 <= i < |b| ==> (b + [SEP] + y)[i] == b[i];
    assert |a| == |b|;
    assert a == s[..|a|] && b == s[..|b|];
    assert x == s[|a| + 1..] && y == s[|b| + 1..];
  }

  lemma ServletKeyUnique(n1: string, z1: string, s1: string, n2: string, z2: string, s2: string)
    requires Clean(n1) && Clean(z1) && Clean(n2) && Clean(z2)
    requires MakeServletKey(MakeZoneKey(n1, z1), s1) == MakeServletKey(MakeZoneKey(n2, z2), s2)
    ensures n1 == n2 && z1 == z2 && s1 == s2
  {
    assert MakeServletKey(MakeZoneKey(n1, z1), s1) == n1 + [SEP] + (z1 + [SEP] + s1);
    assert MakeServletKey(MakeZoneKey(n2, z2), s2) == n2 + [SEP] + (z2 + [SEP] + s2);
    SplitUnique(n1, z1 + [SEP] + s1, n2, z2 + [SEP] + s2);
    SplitUnique(z1, s1, z2, s2);
  }

  /** The server itself takes any name; one with a separator in it is confusable. */
  lemma UncleanNamesCollide(a: string, b: string, c: string)
    ensures MakeZoneKey(a + [SEP] + b, c) == MakeZoneKey(a, b + [SEP] + c)
    ensures a + [SEP] + b != a
  {
    assert a + [SEP] + b + [SEP] + c == a + [SEP] + (b + [SEP] + c);
    assert |a + [SEP] + b| > |a|;
  }

  // ---- schema keys of the store

  datatype SchemaKey =
    | NamespaceKey(id: int)
    | ZoneKey(id: int)
    | ServletKey(id: int)
    | MaxNamespaceId
    | MaxZoneId
    | MaxServletId

  function Pow256(n: nat): (p: nat)
    ensures p > 0
  {
    if n == 0 then 1 else 256 * Pow256(n - 1)
  }

  /** The low n bytes of u, least significant first. */
  function LittleEndian(u: nat, n: nat): (s: string)
    ensures |s| == n && forall i :: 0 <= i < n ==> s[i] as int < 256
  {
    if n == 0 then [] else [(u % 256) as char] + LittleEndian(u / 256, n - 1)
  }

  function FromLittleEndian(s: string): nat {
    if s == [] then 0 else s[0] as int + 256 * FromLittleEndian(s[1..])
  }

  lemma {:induction false} LittleEndianRoundTrip(u: nat, n: nat)
    requires u < Pow256(n)
    ensures FromLittleEndian(LittleEndian(u, n)) == u
  {
    if n > 0 {
      LittleEndianRoundTrip(u / 256, n - 1);
      assert LittleEndian(u, n)[1..] == LittleEndian(u / 256, n - 1);
    }
  }

  /** The eight bytes of an int64_t in memory. */
  function IdBytes(id: int): string
    requires IsInt64(id)
  {
    LittleEndian(if id < 0 then id + TWO_64 else id, 8)
  }

  function BytesId(s: string): int {
    var u := FromLittleEndian(s);
    if u >= TWO_64 / 2 then u - TWO_64 else u
  }

  lemma IdRoundTrip(id: int)
    requires IsInt64(id)
    ensures |IdBytes(id)| == 8 && BytesId(IdBytes(id)) == id
  {
    assert Pow256(4) == 0x1_0000_0000;
    assert Pow256(8) == TWO_64;
    LittleEndianRoundTrip(if id < 0 then id + TWO_64 else id, 8);
  }

  const SCHEMA_IDENTIFY: string := [1 as char]
  const MAX_ID_PREFIX: string := [1 as char, 1 as char]
  const NAMESPACE_PREFIX: string := [1 as char, 2 as char]
  const ZONE_PREFIX: string := [1 as char, 9 as char]
  const SERVLET_PREFIX: string := [1 as char, 10 as char]

  predicate KeyOk(k: SchemaKey) {
    !k.MaxNamespaceId? && !k.MaxZoneId? && !k.MaxServletId? ==> IsInt64(k.id)
  }

  function KeyBytes(k: SchemaKey): string
    requires KeyOk(k)
  {
    match k
    case NamespaceKey(id) => NAMESPACE_PREFIX + IdBytes(id)
    case ZoneKey(id) => ZONE_PREFIX + IdBytes(id)
    case ServletKey(id) => SERVLET_PREFIX + IdBytes(id)
    case MaxNamespaceId => MAX_ID_PREFIX + "max_namespace_id"
    case MaxZoneId => MAX_ID_PREFIX + "max_zone_id"
    case MaxServletId => MAX_ID_PREFIX + "max_servlet_id"
  }

  /** The branches of SchemaManager::load_snapshot and load_max_id_snapshot. */
  function Classify(key: string): Option<SchemaKey> {
    if ZONE_PREFIX <= key then Some(ZoneKey(BytesId(key[2..])))
    else if SERVLET_PREFIX <= key then Some(ServletKey(BytesId(key[2..])))
    else if NAMESPACE_PREFIX <= key then Some(NamespaceKey(BytesId(key[2..])))
    else if MAX_ID_PREFIX <= key then
      if key[2..] == "max_namespace_id" then Some(MaxNamespaceId)
      else if key[2..] == "max_zone_id" then Some(MaxZoneId)
      else if key[2..] == "max_servlet_id" then Some(MaxServletId)
      else None
    else None
  }

  /** Every key is recognised as what it was written as, so the key classes are
      disjoint, ids survive, and no two keys share their bytes. */
  lemma ClassifyKey(k: SchemaKey)
    requires KeyOk(k)
    ensures Classify(KeyBytes(k)) == Some(k)
  {
    var s := KeyBytes(k);
    assert s[0] == 1 as char;
    match k
    case NamespaceKey(id) => IdRoundTrip(id); assert s[2..] == IdBytes(id) && s[1] == 2 as char;
    case ZoneKey(id) => IdRoundTrip(id); assert s[2..] == IdBytes(id) && s[1] == 9 as char;
    case ServletKey(id) => IdRoundTrip(id); assert s[2..] == IdBytes(id) && s[1] == 10 as char;
    case MaxNamespaceId => assert s[2..] == "max_namespace_id" && s[1] == 1 as char;
    case MaxZoneId => assert s[2..] == "max_zone_id" && s[1] == 1 as char; assert |"max_zone_id"| != |"max_namespace_id"|;
    case MaxServletId =>
      assert s[2..] == "max_servlet_id" && s[1] == 1 as char;
      assert |"max_servlet_id"| != |"max_namespace_id"| && |"max_servlet_id"| != |"max_zone_id"|;
  }

  lemma {:induction false} ByteAt(u: nat, n: nat, i: nat)
    requires i < n
    ensures LittleEndian(u, n)[i] as int == (u / Pow256(i)) % 256
    decreases n
  {
    if i > 0 {
      ByteAt(u / 256, n - 1, i - 1);
      DivDiv(u, Pow256(i - 1));
    }
  }

  lemma DivDiv(u: nat, p: nat)
    requires p > 0
    ensures u / 256 / p == u / (256 * p)
  {
    var a, b := u / 256, u / 256 / p;
    assert u == 256 * a + u % 256 && a == p * b + a % p;
    assert a % p + 1 <= p;
    assert 256 * (a % p) + 255 < 256 * p;
    assert u == 256 * p * b + (256 * (a % p) + u % 256);
    DivUnique(u, 256 * p, b, 256 * (a % p) + u % 256);
  }

  lemma LessByFactor(d: nat, a: int, b: int)
    requires d > 0 && d * a < d * b
    ensures a < b
  {
    assert d * (b - a) > 0;
  }

  lemma DivUnique(u: nat, d: nat, q: nat, r: nat)
    requires d > 0 && r < d && u == d * q + r
    ensures u / d == q
  {
    var q', r' := u / d, u % d;
    assert u == d * q' + r';
    assert d * (q' + 1) == d * q' + d && d * (q + 1) == d * q + d;
    LessByFactor(d, q, q' + 1);
    LessByFactor(d, q', q + 1);
  }

  /** The bytes of the keys that hold entries: two of a prefix, and the id with its
      low byte first. */
  lemma EntryKeyBytes(id: int)
    requires IsInt64(id)
    ensures KeyBytes(NamespaceKey(id))[..2] == [1 as char, 2 as char]
    ensures KeyBytes(ZoneKey(id))[..2] == [1 as char, 9 as char]
    ensures KeyBytes(ServletKey(id))[..2] == [1 as char, 10 as char]
    ensures KeyBytes(NamespaceKey(id))[2..] == KeyBytes(ZoneKey(id))[2..] == KeyBytes(ServletKey(id))[2..] == IdBytes(id)
    ensures KeyBytes(MaxNamespaceId) == [1 as char, 1 as char] + "max_namespace_id"
    ensures KeyBytes(MaxZoneId) == [1 as char, 1 as char] + "max_zone_id"
    ensures KeyBytes(MaxServletId) == [1 as char, 1 as char] + "max_servlet_id"
  {
    hide IdBytes;
  }

  lemma LowByteFirst(id: int, i: nat)
    requires IsInt64(id) && i < 8
    ensures |IdBytes(id)| == 8
    ensures IdBytes(id)[i] as int == ((if id < 0 then id + TWO_64 else id) / Pow256(i)) % 256
  {
    ByteAt(if id < 0 then id + TWO_64 else id, 8, i);
  }

  lemma KeyBytesInjective(a: SchemaKey, b: SchemaKey)
    requires KeyOk(a) && KeyOk(b) && KeyBytes(a) == KeyBytes(b)
    ensures a == b
  {
    ClassifyKey(a);
    ClassifyKey(b);
  }

  // ---- versions and config keys

  /** The components are read as 64-bit numbers. */
  datatype Version = Version(major: Int64, minor: Int64, patch: Int64)

  function VersionToString(v: Version): string {
    ToString(v.major) + "." + ToString(v.minor) + "." + ToString(v.patch)
  }

  /** StrSplit(s, "."). */
  function SplitDots(s: string): (parts: seq<string>)
    ensures |parts| > 0
    decreases |s|
  {
    if '.' !in s then [s]
    else
      var i := FirstDot(s);
      [s[..i]] + SplitDots(s[i + 1..])
  }

  function FirstDot(s: string): (i: nat)
    requires '.' in s
    ensures i < |s| && s[i] == '.' && '.' !in s[..i]
  {
    if s[0] == '.' then 0
    else
      assert s == [s[0]] + s[1..];
      var k := FirstDot(s[1..]);
      assert s[..k + 1] == [s[0]] + s[1..][..k];
      1 + k
  }

  lemma SplitOne(a: string, rest: string)
    requires '.' !in a
    ensures SplitDots(a + "." + rest) == [a] + SplitDots(rest)
  {
    var s := a + "." + rest;
    assert s[|a|] == '.';
    var i := FirstDot(s);
    assert forall k :: 0 <= k < |a| ==> s[k] == a[k];
    assert forall k :: 0 <= k < i ==> s[k] == s[..i][k];
    assert i == |a|;
    assert s[..i] == a && s[i + 1..] == rest;
  }

  function StringToVersion(s: string): Option<Version> {
    var parts := SplitDots(s);
    if |parts| != 3 then None
    else
      match (ParseInt64(parts[0]), ParseInt64(parts[1]), ParseInt64(parts[2]))
      case (Some(a), Some(b), Some(c)) => Some(Version(a, b, c))
      case _ => None
  }

  lemma SplitThree(a: string, b: string, c: string)
    requires '.' !in a && '.' !in b && '.' !in c
    ensures SplitDots(a + "." + b + "." + c) == [a, b, c]
  {
    hide SplitDots;
    var rest := b + "." + c;
    assert a + "." + b + "." + c == a + "." + rest;
    SplitOne(a, rest);
    SplitOne(b, c);
    NoDots(c);
  }

  lemma NoDots(c: string)
    requires '.' !in c
    ensures SplitDots(c) == [c]
  {
  }

  lemma VersionRoundTrip(v: Version)
    ensures VersionToString(v) == ToString(v.major) + "." + ToString(v.minor) + "." + ToString(v.patch)
    ensures StringToVersion(VersionToString(v)) == Some(v)
  {
    SplitThree(ToString(v.major), ToString(v.minor), ToString(v.patch));
    ParseUndoesToString(v.major);
    ParseUndoesToString(v.minor);
    ParseUndoesToString(v.patch);
  }

  const CONFIG_IDENTIFY: string := [4 as char]

  function MakeConfigKey(name: string, v: Version): string {
    CONFIG_IDENTIFY + name + VersionToString(v)
  }

  /** The name ends in a digit other than '0' and then at most so many zeros. */
  predicate EndsNonZero(name: string, zeros: nat) {
    name != [] && IsDigit(name[|name| - 1])
    && (name[|name| - 1] != '0' || (zeros > 0 && EndsNonZero(name[..|name| - 1], zeros - 1)))
  }

  /** With 18 zeros the end of the name is too long to begin a 64-bit number. */
  const MAX_ZEROS := 17

  /** The names whose end can be read as the beginning of a version. */
  predicate Confusable(name: string) {
    name != [] && (name[|name| - 1] == '-' || EndsNonZero(name, MAX_ZEROS))
  }

  lemma LastDotUnique(p: string, d: string, q: string, e: string)
    requires '.' !in d && '.' !in e && p + "." + d == q + "." + e
    ensures p == q && d == e
  {
    var s := p + "." + d;
    assert s[|p|] == '.' && (q + "." + e)[|q|] == '.';
    assert forall k :: |p| < k < |s| ==> s[k] == d[k - |p| - 1];
    assert forall k :: |q| < k < |s| ==> (q + "." + e)[k] == e[k - |q| - 1];
    assert |p| == |q|;
    assert p == s[..|p|] && q == s[..|q|];
    assert d == s[|p| + 1..] && e == s[|q| + 1..];
  }

  lemma DottedMeet(p: string, b: string, c: string, q: string, e: string, f: string)
    requires '.' !in b && '.' !in c && '.' !in e && '.' !in f
    requires p + "." + b + "." + c == q + "." + e + "." + f
    ensures p == q && b == e && c == f
  {
    LastDotUnique(p + "." + b, c, q + "." + e, f);
    LastDotUnique(p, b, q, e);
  }

  lemma KeyText(n: string, a: string, b: string, c: string)
    ensures CONFIG_IDENTIFY + n + (a + "." + b + "." + c) == CONFIG_IDENTIFY + (n + a) + "." + b + "." + c
  {
  }

  /** Equal keys have equal minor and patch numbers and meet before the first dot. */
  lemma KeysMeet(n: string, v: Version, m: string, w: Version)
    requires MakeConfigKey(n, v) == MakeConfigKey(m, w)
    ensures v.minor == w.minor && v.patch == w.patch
    ensures n + ToString(v.major) == m + ToString(w.major)
  {
    var a, b, c := ToString(v.major), ToString(v.minor), ToString(v.patch);
    var d, e, f := ToString(w.major), ToString(w.minor), ToString(w.patch);
    KeyText(n, a, b, c);
    KeyText(m, d, e, f);
    DottedMeet(CONFIG_IDENTIFY + (n + a), b, c, CONFIG_IDENTIFY + (m + d), e, f);
    ToStringInjective(v.minor, w.minor);
    ToStringInjective(v.patch, w.patch);
    assert (CONFIG_IDENTIFY + (n + a))[1..] == n + a && (CONFIG_IDENTIFY + (m + d))[1..] == m + d;
  }

  lemma {:induction false} DigitsAtEnd(m: string, x: string, zeros: nat)
    requires AllDigits(x) && 0 < |x| <= zeros + 1 && x[0] != '0'
    ensures EndsNonZero(m + x, zeros)
    decreases |x|
  {
    if |x| > 1 {
      assert (m + x)[..|m + x| - 1] == m + x[..|x| - 1];
      if zeros > 0 {
        DigitsAtEnd(m, x[..|x| - 1], zeros - 1);
      }
    }
  }

  lemma {:induction false} SplitAt(n: string, a: string, m: string, b: string) returns (x: string)
    requires n + a == m + b && |m| < |n|
    ensures n == m + x && b == x + a && |x| > 0
  {
    var s := n + a;
    x := n[|m|..];
    assert n == s[..|n|] && m == s[..|m|] && b == s[|m|..];
  }

  /** A longer name only shares a key with a shorter one if its end is confusable. */
  lemma LongerIsConfusable(n: string, v: Version, m: string, w: Version)
    requires MakeConfigKey(n, v) == MakeConfigKey(m, w) && |m| < |n|
    ensures Confusable(n)
  {
    KeysMeet(n, v, m, w);
    var x := SplitAt(n, ToString(v.major), m, ToString(w.major));
    NumberFront(m, x, ToString(v.major), w.major);
  }

  lemma NumberFront(m: string, x: string, rest: string, z: Int64)
    requires ToString(z) == x + rest && |x| > 0 && |rest| > 0
    ensures Confusable(m + x)
  {
    Int64Digits(z);
    assert x == ToString(z)[..|x|];
    if z >= 0 {
      assert x[0] == ToString(z)[0] && x[0] != '0';
      DigitsAtEnd(m, x, MAX_ZEROS);
    } else if |x| > 1 {
      var size: int := z;
      FirstDigit(-size);
      var y := x[1..];
      assert y == Digits(-size)[..|y|];
      assert m + x == (m + ['-']) + y;
      DigitsAtEnd(m + ['-'], y, MAX_ZEROS);
    }
  }

  /** Among names that are not confusable, config keys are injective. */
  lemma ConfigKeyInjective(n: string, v: Version, m: string, w: Version)
    requires !Confusable(n) && !Confusable(m)
    requires MakeConfigKey(n, v) == MakeConfigKey(m, w)
    ensures n == m && v == w
  {
    if |m| < |n| {
      LongerIsConfusable(n, v, m, w);
    } else if |n| < |m| {
      LongerIsConfusable(m, w, n, v);
    } else {
      KeysMeet(n, v, m, w);
      var s := n + ToString(v.major);
      assert n == s[..|n|] && m == s[..|m|];
      assert ToString(v.major) == s[|n|..] && ToString(w.major) == s[|m|..];
      ToStringInjective(v.major, w.major);
    }
  }

  /** From the last digit that is not '0' on, the end of the name reads as a round number. */
  lemma {:induction false} NonZeroTail(name: string, zeros: nat) returns (m: string, x: string)
    requires EndsNonZero(name, zeros)
    ensures name == m + x && 0 < |x| <= zeros + 1 && AllDigits(x) && x[0] != '0'
    ensures Value(x) <= 9 * Pow10(|x| - 1)
    decreases |name|
  {
    var last := |name| - 1;
    if name[last] != '0' {
      m, x := name[..last], name[last..];
      assert x == [] + [name[last]];
      ValuePush([], name[last]);
    } else {
      var y;
      m, y := NonZeroTail(name[..last], zeros - 1);
      x := y + [name[last]];
      ValuePush(y, name[last]);
      assert name == name[..last] + [name[last]];
    }
  }

  lemma {:induction false} Pow10Grows(i: nat, j: nat)
    requires i <= j
    ensures Pow10(i) <= Pow10(j)
    decreases j
  {
    if i < j {
      Pow10Grows(i, j - 1);
    }
  }

  /** And every confusable name does share a key with a shorter one, 64-bit
      versions both: the side condition is exact. */
  lemma ConfusableCollides(n: string) returns (v: Version, m: string, w: Version)
    requires Confusable(n)
    ensures |m| < |n| && MakeConfigKey(n, v) == MakeConfigKey(m, w)
  {
    if n[|n| - 1] == '-' {
      m, v, w := n[..|n| - 1], Version(1, 0, 0), Version(-1, 0, 0);
      assert n + ToString(1) == m + ToString(-1);
      SameFront(n, v, m, w);
    } else {
      var x;
      m, x := NonZeroTail(n, MAX_ZEROS);
      var digits := x + "0";
      ValuePush(x, '0');
      Pow10Grows(|x| - 1, MAX_ZEROS);
      Pow10Nineteen();
      assert Pow10(19) == 100 * Pow10(MAX_ZEROS);
      v, w := Version(0, 0, 0), Version(Value(digits), 0, 0);
      DigitsOfValue(digits);
      assert n + ToString(0) == m + digits;
      SameFront(n, v, m, w);
    }
  }

  lemma SameFront(n: string, v: Version, m: string, w: Version)
    requires v.minor == w.minor && v.patch == w.patch && n + ToString(v.major) == m + ToString(w.major)
    ensures MakeConfigKey(n, v) == MakeConfigKey(m, w)
  {
    KeyText(n, ToString(v.major), ToString(v.minor), ToString(v.patch));
    KeyText(m, ToString(w.major), ToString(w.minor), ToString(w.patch));
  }
}

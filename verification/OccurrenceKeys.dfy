/**
 * Printable keys of occurrences and executions: percent-encoded segments (section 2.1 of
 * RFC 3986, over UTF-8, with the dot encoded too) joined by dots.
 */
module OccurrenceKeys {
  import opened Identity

  /** The characters a URI component keeps: letters, digits and nine marks, of which the dot is encoded after all. */
  predicate Kept(c: char) {
    'A' <= c <= 'Z' || 'a' <= c <= 'z' || '0' <= c <= '9'
    || c == '-' || c == '_' || c == '!' || c == '~' || c == '*' || c == '\'' || c == '(' || c == ')'
  }

  // ---------------------------------------------------------------------
  // UTF-8

  type Octet = b: int | 0 <= b < 256

  function Utf8(c: char): (bytes: seq<Octet>)
    ensures 1 <= |bytes| <= 4
  {
    var v := c as int;
    if v < 0x80 then [v]
    else if v < 0x800 then [0xC0 + v / 64, 0x80 + v % 64]
    else if v < 0x1_0000 then [0xE0 + v / 4096, 0x80 + v / 64 % 64, 0x80 + v % 64]
    else [0xF0 + v / 262144, 0x80 + v / 4096 % 64, 0x80 + v / 64 % 64, 0x80 + v % 64]
  }

  /** The length a leading octet announces, or zero for one that cannot lead. */
  function Announced(b: Octet): nat {
    if b < 0x80 then 1 else if 0xC0 <= b < 0xE0 then 2 else if 0xE0 <= b < 0xF0 then 3 else if 0xF0 <= b < 0xF8 then 4
    else 0
  }

  predicate Continues(b: Octet) {
    0x80 <= b < 0xC0
  }

  /** The bits a sequence of one to four octets carries. */
  function CodePoint(bytes: seq<Octet>): int
    requires |bytes| > 0
  {
    if |bytes| == 1 then bytes[0] as int
    else if |bytes| == 2 then (bytes[0] as int - 0xC0) * 64 + (bytes[1] as int - 0x80)
    else if |bytes| == 3 then (bytes[0] as int - 0xE0) * 4096 + (bytes[1] as int - 0x80) * 64 + (bytes[2] as int - 0x80)
    else if |bytes| == 4 then
      (bytes[0] as int - 0xF0) * 262144 + (bytes[1] as int - 0x80) * 4096 + (bytes[2] as int - 0x80) * 64
        + (bytes[3] as int - 0x80)
    else 0
  }

  /** The character of one complete octet sequence; overlong forms, surrogates and values out of range are malformed. */
  function FromUtf8(bytes: seq<Octet>): Option<char>
    requires |bytes| > 0
  {
    if |bytes| != Announced(bytes[0]) || exists i :: 1 <= i < |bytes| && !Continues(bytes[i]) then None
    else
      var v := CodePoint(bytes);
      if (|bytes| == 2 && v < 0x80) || (|bytes| == 3 && v < 0x800) || (|bytes| == 4 && v < 0x1_0000)
         || 0xD800 <= v < 0xE000 || v >= 0x11_0000 || v < 0
      then None else Some(v as char)
  }

  lemma FromUtf8OfUtf8(c: char)
    ensures Announced(Utf8(c)[0]) == |Utf8(c)| && FromUtf8(Utf8(c)) == Some(c)
  {
    var v := c as int;
    assert v < 0x11_0000;
    assert v == v / 64 * 64 + v % 64;
    assert v / 64 == v / 64 / 64 * 64 + v / 64 % 64 && v / 4096 == v / 64 / 64;
    assert v / 4096 == v / 4096 / 64 * 64 + v / 4096 % 64 && v / 262144 == v / 4096 / 64;
  }

  /** Decoding is strict: only the octets a character encodes to read as that character. */
  lemma FromUtf8Exactly(bytes: seq<Octet>, c: char)
    requires |bytes| > 0
    ensures FromUtf8(bytes) == Some(c) <==> bytes == Utf8(c)
  {
    if bytes == Utf8(c) {
      FromUtf8OfUtf8(c);
    } else if FromUtf8(bytes) == Some(c) {
      Canonical(bytes, c);
    }
  }

  lemma Canonical(bytes: seq<Octet>, c: char)
    requires |bytes| > 0 && FromUtf8(bytes) == Some(c)
    ensures bytes == Utf8(c)
  {
    assert forall i :: 1 <= i < |bytes| ==> Continues(bytes[i]);
    if |bytes| == 2 {
      CanonicalTwo(bytes[0], bytes[1], c as int);
    } else if |bytes| == 3 {
      CanonicalThree(bytes[0], bytes[1], bytes[2], c as int);
    } else if |bytes| == 4 {
      CanonicalFour(bytes[0], bytes[1], bytes[2], bytes[3], c as int);
    }
  }

  lemma CanonicalTwo(a: Octet, b: Octet, v: int)
    requires a >= 0xC0 && 0x80 <= b < 0xC0 && v == (a - 0xC0) * 64 + (b - 0x80)
    ensures a == 0xC0 + v / 64 && b == 0x80 + v % 64
  {
  }

  lemma CanonicalThree(a: Octet, b: Octet, c: Octet, v: int)
    requires a >= 0xE0 && 0x80 <= b < 0xC0 && 0x80 <= c < 0xC0
    requires v == (a - 0xE0) * 4096 + (b - 0x80) * 64 + (c - 0x80)
    ensures a == 0xE0 + v / 4096 && b == 0x80 + v / 64 % 64 && c == 0x80 + v % 64
  {
    assert v / 64 == (a - 0xE0) * 64 + (b - 0x80);
  }

  lemma CanonicalFour(a: Octet, b: Octet, c: Octet, d: Octet, v: int)
    requires a >= 0xF0 && 0x80 <= b < 0xC0 && 0x80 <= c < 0xC0 && 0x80 <= d < 0xC0
    requires v == (a - 0xF0) * 262144 + (b - 0x80) * 4096 + (c - 0x80) * 64 + (d - 0x80)
    ensures a == 0xF0 + v / 262144 && b == 0x80 + v / 4096 % 64 && c == 0x80 + v / 64 % 64 && d == 0x80 + v % 64
  {
    assert v / 64 == (a - 0xF0) * 4096 + (b - 0x80) * 64 + (c - 0x80);
    assert v / 4096 == (a - 0xF0) * 64 + (b - 0x80);
  }

  /** The characters section 2.3 of RFC 3986 leaves unreserved, and five more, by code; the dot is not kept. */
  lemma KeptExactly(c: char)
    ensures Kept(c) <==>
              var v := c as int;
              65 <= v <= 90 || 97 <= v <= 122 || 48 <= v <= 57 || v in {45, 95, 126, 33, 42, 39, 40, 41}
  {
  }

  // ---------------------------------------------------------------------
  // Percent encoding

  const HEX: string := "0123456789ABCDEF"

  function PercentOctet(b: Octet): string {
    ['%', HEX[b / 16], HEX[b % 16]]
  }

  function Percent(bytes: seq<Octet>): string {
    if bytes == [] then "" else PercentOctet(bytes[0]) + Percent(bytes[1..])
  }

  function EscapeChar(c: char): string {
    if Kept(c) then [c] else Percent(Utf8(c))
  }

  function EscapeSeg(s: string): string {
    if s == "" then "" else EscapeChar(s[0]) + EscapeSeg(s[1..])
  }

  /** A hexadecimal digit in either case. */
  function HexValue(c: char): Option<nat> {
    if '0' <= c <= '9' then Some(c as int - '0' as int)
    else if 'A' <= c <= 'F' then Some(c as int - 'A' as int + 10)
    else if 'a' <= c <= 'f' then Some(c as int - 'a' as int + 10)
    else None
  }

  function OctetAt(s: string): Option<Octet> {
    if |s| < 3 || s[0] != '%' then None
    else
      match (HexValue(s[1]), HexValue(s[2]))
      case (Some(h), Some(l)) => if h < 16 && l < 16 then Some(h * 16 + l) else None
      case _ => None
  }

  function OctetsAt(s: string, n: nat): Option<seq<Octet>> {
    if n == 0 then Some([])
    else
      match OctetAt(s)
      case None => None
      case Some(b) =>
        match OctetsAt(s[3..], n - 1)
        case None => None
        case Some(rest) => Some([b] + rest)
  }

  /** Decoding; nothing stands for the exception on a malformed escape. */
  function UnescapeSeg(s: string): Option<string> {
    if s == "" then Some("")
    else if s[0] != '%' then
      match UnescapeSeg(s[1..])
      case None => None
      case Some(rest) => Some([s[0]] + rest)
    else
      match OctetAt(s)
      case None => None
      case Some(lead) =>
        var n := Announced(lead);
        if n == 0 || |s| < 3 * n then None
        else
          match OctetsAt(s, n)
          case None => None
          case Some(bytes) =>
            if bytes == [] then None
            else
              match (FromUtf8(bytes), UnescapeSeg(s[3 * n..]))
              case (Some(c), Some(rest)) => Some([c] + rest)
              case _ => None
  }

  lemma OctetOfPercent(b: Octet, tail: string)
    ensures OctetAt(PercentOctet(b) + tail) == Some(b) && (PercentOctet(b) + tail)[3..] == tail
  {
    HexDigits(b / 16);
    HexDigits(b % 16);
  }

  lemma HexDigits(d: nat)
    requires d < 16
    ensures HexValue(HEX[d]) == Some(d) && Kept(HEX[d])
  {
  }

  lemma {:induction false} OctetsOfPercent(bytes: seq<Octet>, tail: string)
    ensures OctetsAt(Percent(bytes) + tail, |bytes|) == Some(bytes)
    ensures |Percent(bytes)| == 3 * |bytes| && (Percent(bytes) + tail)[3 * |bytes|..] == tail
  {
    if bytes != [] {
      var more := Percent(bytes[1..]) + tail;
      assert Percent(bytes) + tail == PercentOctet(bytes[0]) + more;
      OctetOfPercent(bytes[0], more);
      OctetsOfPercent(bytes[1..], tail);
      assert bytes == [bytes[0]] + bytes[1..];
    }
  }

  lemma PercentStarts(bytes: seq<Octet>, tail: string)
    requires bytes != []
    ensures OctetAt(Percent(bytes) + tail) == Some(bytes[0]) && (Percent(bytes) + tail)[0] == '%'
  {
    hide OctetAt;
    assert Percent(bytes) + tail == PercentOctet(bytes[0]) + (Percent(bytes[1..]) + tail);
    OctetOfPercent(bytes[0], Percent(bytes[1..]) + tail);
  }

  /** Decoding the octets of one character leaves the rest. */
  lemma UnescapeOctets(bytes: seq<Octet>, c: char, tail: string)
    requires bytes != [] && Announced(bytes[0]) == |bytes| && FromUtf8(bytes) == Some(c)
    ensures UnescapeSeg(Percent(bytes) + tail) ==
            match UnescapeSeg(tail) case None => None case Some(rest) => Some([c] + rest)
  {
    hide FromUtf8;
    hide OctetsAt;
    hide OctetAt;
    hide Percent;
    hide Announced;
    PercentStarts(bytes, tail);
    OctetsOfPercent(bytes, tail);
  }

  /** Decoding one encoded character leaves the rest. */
  lemma UnescapeOfEscapeChar(c: char, tail: string)
    ensures UnescapeSeg(EscapeChar(c) + tail) ==
            match UnescapeSeg(tail) case None => None case Some(rest) => Some([c] + rest)
  {
    hide FromUtf8;
    hide Utf8;
    hide Percent;
    if Kept(c) {
      assert ([c] + tail)[1..] == tail;
    } else {
      FromUtf8OfUtf8(c);
      UnescapeOctets(Utf8(c), c, tail);
    }
  }

  /** Decoding inverts encoding, on every string. */
  lemma {:induction false} UnescapeOfEscape(s: string)
    ensures UnescapeSeg(EscapeSeg(s)) == Some(s)
  {
    if s != "" {
      UnescapeOfEscapeChar(s[0], EscapeSeg(s[1..]));
      UnescapeOfEscape(s[1..]);
      assert s == [s[0]] + s[1..];
    }
  }

  lemma {:induction false} PercentPlain(bytes: seq<Octet>)
    ensures forall i :: 0 <= i < |Percent(bytes)| ==> Percent(bytes)[i] == '%' || Kept(Percent(bytes)[i])
  {
    if bytes != [] {
      PercentPlain(bytes[1..]);
      HexDigits(bytes[0] / 16);
      HexDigits(bytes[0] % 16);
    }
  }

  /**
   * An encoded segment is made of kept characters and percent signs, so it has no dot, and is empty
   * only for the empty segment.
   */
  lemma {:induction false} EscapeSegPlain(s: string)
    ensures forall i :: 0 <= i < |EscapeSeg(s)| ==> EscapeSeg(s)[i] == '%' || Kept(EscapeSeg(s)[i])
    ensures '.' !in EscapeSeg(s) && (s != "" ==> EscapeSeg(s) != "")
  {
    if s != "" {
      EscapeSegPlain(s[1..]);
      if !Kept(s[0]) {
        PercentPlain(Utf8(s[0]));
        assert Percent(Utf8(s[0])) != "";
      }
    }
  }

  // ---------------------------------------------------------------------
  // Joined keys

  function Join(segs: seq<string>): string {
    if segs == [] then "" else if |segs| == 1 then segs[0] else segs[0] + "." + Join(segs[1..])
  }

  /** Splitting at every dot: a string without one is its only part. */
  function Split(s: string): (parts: seq<string>)
    ensures |parts| > 0
  {
    if s == "" then [""]
    else
      var rest := Split(s[1..]);
      if s[0] == '.' then [""] + rest else [[s[0]] + rest[0]] + rest[1..]
  }

  lemma {:induction false} SplitPlain(a: string)
    requires '.' !in a
    ensures Split(a) == [a]
  {
    if a != "" {
      SplitPlain(a[1..]);
      assert a == [a[0]] + a[1..];
    }
  }

  lemma {:induction false} SplitDotted(a: string, b: string)
    requires '.' !in a
    ensures Split(a + "." + b) == [a] + Split(b)
  {
    var s := a + "." + b;
    if a == "" {
      assert s[1..] == b;
    } else {
      assert s[1..] == a[1..] + "." + b;
      SplitDotted(a[1..], b);
      assert a == [a[0]] + a[1..];
    }
  }

  lemma {:induction false} SplitOfJoin(segs: seq<string>)
    requires segs != [] && forall i :: 0 <= i < |segs| ==> '.' !in segs[i]
    ensures Split(Join(segs)) == segs
  {
    if |segs| == 1 {
      SplitPlain(segs[0]);
    } else {
      SplitDotted(segs[0], Join(segs[1..]));
      SplitOfJoin(segs[1..]);
      assert segs == [segs[0]] + segs[1..];
    }
  }

  function EscapeAll(segs: seq<string>): (keys: seq<string>)
    ensures |keys| == |segs| && forall i :: 0 <= i < |segs| ==> keys[i] == EscapeSeg(segs[i])
  {
    seq(|segs|, i requires 0 <= i < |segs| => EscapeSeg(segs[i]))
  }

  function UnescapeAll(keys: seq<string>): Option<seq<string>> {
    if keys == [] then Some([])
    else
      match (UnescapeSeg(keys[0]), UnescapeAll(keys[1..]))
      case (Some(s), Some(rest)) => Some([s] + rest)
      case _ => None
  }

  lemma {:induction false} UnescapeAllOfEscapeAll(segs: seq<string>)
    ensures UnescapeAll(EscapeAll(segs)) == Some(segs)
  {
    if segs != [] {
      UnescapeOfEscape(segs[0]);
      UnescapeAllOfEscapeAll(segs[1..]);
      assert EscapeAll(segs)[1..] == EscapeAll(segs[1..]);
      assert segs == [segs[0]] + segs[1..];
    }
  }

  // ---------------------------------------------------------------------
  // Occurrences and executions

  /** A node reached through a path of instance nodes. */
  datatype Occurrence = Occurrence(instancePath: seq<string>, node: string)

  function OccurrenceKey(o: Occurrence): string {
    Join(EscapeAll(o.instancePath + [o.node]))
  }

  function ParseOccurrenceKey(key: string): Option<Occurrence> {
    match UnescapeAll(Split(key))
    case None => None
    case Some(segs) =>
      if segs == [] || "" in segs then None else Some(Occurrence(segs[..|segs| - 1], segs[|segs| - 1]))
  }

  function ExecutionKey(connection: string, prompt: string): string {
    EscapeSeg(connection) + "." + EscapeSeg(prompt)
  }

  function IsOccurrenceKeyWithin(key: string, instanceNode: string): bool {
    EscapeSeg(instanceNode) + "." <= key
  }

  lemma SplitOfKey(segs: seq<string>)
    requires segs != []
    ensures Split(Join(EscapeAll(segs))) == EscapeAll(segs)
  {
    forall i | 0 <= i < |segs|
      ensures '.' !in EscapeAll(segs)[i]
    {
      EscapeSegPlain(segs[i]);
    }
    SplitOfJoin(EscapeAll(segs));
  }

  lemma {:induction false} JoinPlain(segs: seq<string>)
    ensures forall i :: 0 <= i < |Join(EscapeAll(segs))| ==>
              Join(EscapeAll(segs))[i] == '.' || Join(EscapeAll(segs))[i] == '%' || Kept(Join(EscapeAll(segs))[i])
  {
    if segs != [] {
      EscapeSegPlain(segs[0]);
      JoinPlain(segs[1..]);
      assert EscapeAll(segs)[1..] == EscapeAll(segs[1..]);
    }
  }

  /** No key contains a character the backend reserves for its own iteration paths. */
  lemma KeyIsBackendSafe(o: Occurrence)
    ensures var key := OccurrenceKey(o); '/' !in key && '[' !in key && ']' !in key && '$' !in key
  {
    JoinPlain(o.instancePath + [o.node]);
  }

  /** Parsing inverts printing for paths of nonempty segments, and refuses a key with an empty one. */
  lemma ParseOfOccurrenceKey(o: Occurrence)
    ensures ParseOccurrenceKey(OccurrenceKey(o)) == if "" in o.instancePath + [o.node] then None else Some(o)
  {
    var segs := o.instancePath + [o.node];
    SplitOfKey(segs);
    UnescapeAllOfEscapeAll(segs);
    assert segs[..|segs| - 1] == o.instancePath;
  }

  /** Equal keys name equal occurrences. */
  lemma OccurrenceKeyInjective(a: Occurrence, b: Occurrence)
    requires OccurrenceKey(a) == OccurrenceKey(b)
    ensures a == b
  {
    var s, t := a.instancePath + [a.node], b.instancePath + [b.node];
    SplitOfKey(s);
    SplitOfKey(t);
    UnescapeAllOfEscapeAll(s);
    UnescapeAllOfEscapeAll(t);
    assert s == t;
    assert s[..|s| - 1] == a.instancePath && t[..|t| - 1] == b.instancePath;
    assert s[|s| - 1] == a.node && t[|t| - 1] == b.node;
    assert a.instancePath == b.instancePath && a.node == b.node;
  }

  lemma ExecutionKeyInjective(c: string, p: string, c': string, p': string)
    requires ExecutionKey(c, p) == ExecutionKey(c', p')
    ensures c == c' && p == p'
  {
    assert Occurrence([c], p).instancePath + [p] == [c, p] && Occurrence([c'], p').instancePath + [p'] == [c', p'];
    TwoSegments(c, p);
    TwoSegments(c', p');
    OccurrenceKeyInjective(Occurrence([c], p), Occurrence([c'], p'));
  }

  lemma TwoSegments(c: string, p: string)
    ensures OccurrenceKey(Occurrence([c], p)) == ExecutionKey(c, p)
  {
    var keys := EscapeAll([c] + [p]);
    assert keys == [EscapeSeg(c), EscapeSeg(p)];
    assert keys[1..] == [EscapeSeg(p)];
    assert Join(keys) == EscapeSeg(c) + "." + Join(keys[1..]);
  }

  /** A key lies within an instance exactly when the occurrence's path starts with that instance. */
  lemma WithinExactly(o: Occurrence, n: string)
    ensures IsOccurrenceKeyWithin(OccurrenceKey(o), n) <==> o.instancePath != [] && o.instancePath[0] == n
  {
    var segs, key, e := o.instancePath + [o.node], OccurrenceKey(o), EscapeSeg(n);
    SplitOfKey(segs);
    EscapeSegPlain(n);
    if o.instancePath != [] {
      var tail := Join(EscapeAll(segs)[1..]);
      assert key == EscapeSeg(segs[0]) + "." + tail;
      assert segs[0] == n ==> e + "." + tail == key;
    }
    if e + "." <= key {
      var rest := key[|e| + 1..];
      assert key == e + "." + rest;
      SplitDotted(e, rest);
      assert EscapeAll(segs)[0] == e && |segs| > 1;
      UnescapeOfEscape(n);
      UnescapeOfEscape(segs[0]);
    }
  }
}

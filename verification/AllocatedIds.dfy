/** Graph ids minted by the allocator: how they are printed and read back. */
module AllocatedIds {
  import opened Identity

  const MAX_SAFE_INTEGER: nat := 0x1F_FFFF_FFFF_FFFF

  /** The prefixes the graph allocator mints. */
  datatype Prefix = NodePrefix | LinkPrefix | NetPrefix | ReroutePrefix | ValueSourcePrefix | SelectorPrefix
    | CandidatePrefix

  function Text(p: Prefix): (s: string)
    ensures s != "" && forall i :: 0 <= i < |s| ==> IsLower(s[i])
  {
    match p
    case NodePrefix => "n"
    case LinkPrefix => "l"
    case NetPrefix => "net"
    case ReroutePrefix => "r"
    case ValueSourcePrefix => "v"
    case SelectorPrefix => "s"
    case CandidatePrefix => "c"
  }

  predicate IsLower(c: char) { 'a' <= c <= 'z' }

  predicate IsDigit(c: char) { '0' <= c <= '9' }

  predicate IsActorChar(c: char) {
    'A' <= c <= 'Z' || IsLower(c) || IsDigit(c) || c == '_' || c == '-'
  }

  predicate IsValidActorId(s: string) {
    s != "" && s != "__proto__" && forall i :: 0 <= i < |s| ==> IsActorChar(s[i])
  }

  /** An ASCII letter, digit, underscore or hyphen, by code. */
  predicate ActorCode(v: int) {
    65 <= v <= 90 || 97 <= v <= 122 || 48 <= v <= 57 || v == 95 || v == 45
  }

  /** An actor id is a nonempty string of those, other than the prototype's name. */
  lemma ValidActorExactly(s: string)
    ensures IsValidActorId(s) <==>
              s != "" && s != "__proto__" && forall i :: 0 <= i < |s| ==> ActorCode(s[i] as int)
  {
  }

  // ---------------------------------------------------------------------
  // Decimal notation

  function Digit(d: nat): (c: char)
    requires d < 10
    ensures IsDigit(c) && c as int == '0' as int + d
  {
    (('0' as int) + d) as char
  }

  function Decimal(n: nat): (s: string)
    ensures s != "" && forall i :: 0 <= i < |s| ==> IsDigit(s[i])
  {
    if n < 10 then [Digit(n)] else Decimal(n / 10) + [Digit(n % 10)]
  }

  function Value(s: string): nat
    requires forall i :: 0 <= i < |s| ==> IsDigit(s[i])
  {
    if s == "" then 0
    else
      assert IsDigit(s[|s| - 1]);
      Value(s[..|s| - 1]) * 10 + (s[|s| - 1] as int - '0' as int)
  }

  lemma {:induction false} ValueOfDecimal(n: nat)
    ensures Value(Decimal(n)) == n
  {
    if n < 10 {
      assert [Digit(n)][..0] == "";
    } else {
      ValueOfDecimal(n / 10);
      assert (Decimal(n / 10) + [Digit(n % 10)])[..|Decimal(n / 10)|] == Decimal(n / 10);
    }
  }

  // ---------------------------------------------------------------------
  // Printing and reading ids

  function FormatAllocatedId(prefix: string, ordinal: nat, actor: Option<string>): string {
    prefix + Decimal(ordinal) + match actor case None => "" case Some(a) => "-" + a
  }

  /** How many leading characters satisfy `p`. */
  function RunLength(s: string, p: char -> bool): (n: nat)
    ensures n <= |s| && (forall i :: 0 <= i < n ==> p(s[i])) && (n < |s| ==> !p(s[n]))
  {
    if s == "" || !p(s[0]) then 0 else 1 + RunLength(s[1..], p)
  }

  datatype ParsedId = ParsedId(prefix: string, ordinal: nat, actor: Option<string>)

  /**
   * The coordinates of a canonical id: lower-case letters, a safe decimal without leading zeros,
   * and a valid actor if any.
   */
  function ParseAllocatedId(id: string): Option<ParsedId> {
    var i := RunLength(id, IsLower);
    var n := RunLength(id[i..], IsDigit);
    if i == 0 || n == 0 then None
    else
      var prefix, digits, rest := id[..i], id[i..i + n], id[i + n..];
      assert forall k :: 0 <= k < n ==> digits[k] == id[i..][k];
      var ordinal := Value(digits);
      if ordinal > MAX_SAFE_INTEGER || digits != Decimal(ordinal) then None
      else if rest == "" then Some(ParsedId(prefix, ordinal, None))
      else if rest[0] != '-' || !IsValidActorId(rest[1..]) then None
      else Some(ParsedId(prefix, ordinal, Some(rest[1..])))
  }

  lemma {:induction false} RunExactly(a: string, b: string, p: char -> bool)
    requires forall i :: 0 <= i < |a| ==> p(a[i])
    requires b == "" || !p(b[0])
    ensures RunLength(a + b, p) == |a|
  {
    if a != "" {
      assert (a + b)[1..] == a[1..] + b;
      RunExactly(a[1..], b, p);
    } else {
      assert a + b == b;
    }
  }

  ghost predicate Printable(prefix: string, ordinal: nat, actor: Option<string>) {
    && prefix != "" && (forall i :: 0 <= i < |prefix| ==> IsLower(prefix[i]))
    && ordinal <= MAX_SAFE_INTEGER
    && (actor.Some? ==> IsValidActorId(actor.value))
  }

  /** Reading inverts printing. */
  lemma ParseOfFormat(prefix: string, ordinal: nat, actor: Option<string>)
    requires Printable(prefix, ordinal, actor)
    ensures ParseAllocatedId(FormatAllocatedId(prefix, ordinal, actor)) == Some(ParsedId(prefix, ordinal, actor))
  {
    var digits := Decimal(ordinal);
    var tail := match actor case None => "" case Some(a) => "-" + a;
    var id := FormatAllocatedId(prefix, ordinal, actor);
    assert id == prefix + (digits + tail);
    RunExactly(prefix, digits + tail, IsLower);
    assert id[|prefix|..] == digits + tail;
    RunExactly(digits, tail, IsDigit);
    assert id[..|prefix|] == prefix;
    assert id[|prefix|..|prefix| + |digits|] == digits;
    assert id[|prefix| + |digits|..] == tail;
    ValueOfDecimal(ordinal);
    if actor.Some? {
      assert tail[1..] == actor.value;
    }
  }

  /** Printing inverts reading: only canonical forms are read. */
  lemma FormatOfParse(id: string)
    requires ParseAllocatedId(id).Some?
    ensures var p := ParseAllocatedId(id).value;
            Printable(p.prefix, p.ordinal, p.actor) && FormatAllocatedId(p.prefix, p.ordinal, p.actor) == id
  {
    var i := RunLength(id, IsLower);
    var n := RunLength(id[i..], IsDigit);
    var prefix, digits, rest := id[..i], id[i..i + n], id[i + n..];
    assert id == prefix + digits + rest;
    if rest != "" {
      assert rest == ['-'] + rest[1..];
    }
  }

  /** So equal ids have equal coordinates. */
  lemma FormatInjective(p: ParsedId, q: ParsedId)
    requires Printable(p.prefix, p.ordinal, p.actor) && Printable(q.prefix, q.ordinal, q.actor)
    requires FormatAllocatedId(p.prefix, p.ordinal, p.actor) == FormatAllocatedId(q.prefix, q.ordinal, q.actor)
    ensures p == q
  {
    ParseOfFormat(p.prefix, p.ordinal, p.actor);
    ParseOfFormat(q.prefix, q.ordinal, q.actor);
  }

  // ---------------------------------------------------------------------
  // Group ids have a cursor of their own

  function AllDigits(s: string): bool {
    forall i :: 0 <= i < |s| ==> IsDigit(s[i])
  }

  function FormatGroupId(n: nat): string {
    "grp" + Decimal(n)
  }

  /** The ordinal of a canonical group key whose successor is still safe. */
  function ParseGroupKey(key: string): Option<nat> {
    if |key| <= 3 || key[..3] != "grp" || !AllDigits(key[3..]) then None
    else
      var v := Value(key[3..]);
      if v > MAX_SAFE_INTEGER || v + 1 > MAX_SAFE_INTEGER || key != FormatGroupId(v) then None else Some(v)
  }

  /** A group key counts exactly when it is the print of an ordinal that leaves its successor safe. */
  lemma GroupKeyExactly(key: string, n: nat)
    ensures ParseGroupKey(key) == Some(n) <==> key == FormatGroupId(n) && n < MAX_SAFE_INTEGER
  {
    if key == FormatGroupId(n) {
      assert key[3..] == Decimal(n) && key[..3] == "grp";
      ValueOfDecimal(n);
    }
    hide Decimal;
    hide Value;
  }

  /** The least cursor at or above the recorded one and above every canonical key. */
  function GroupFloor(groupSeq: Option<nat>, keys: seq<string>): (n: nat)
    ensures groupSeq.Some? ==> n >= groupSeq.value
    ensures forall k :: 0 <= k < |keys| && ParseGroupKey(keys[k]).Some? ==> ParseGroupKey(keys[k]).value < n
    ensures groupSeq.None? || groupSeq.value <= MAX_SAFE_INTEGER ==> n <= MAX_SAFE_INTEGER
  {
    if keys == [] then if groupSeq.Some? then groupSeq.value else 0
    else
      var floor := GroupFloor(groupSeq, keys[..|keys| - 1]);
      var v := ParseGroupKey(keys[|keys| - 1]);
      if v.Some? && v.value + 1 > floor then v.value + 1 else floor
  }

  /** The scan over all evidence, in any order. */
  method GroupIdFloor(groupSeq: Option<nat>, keys: seq<string>) returns (n: nat)
    ensures var start := if groupSeq.Some? then groupSeq.value else 0;
            n >= start && (n == start || exists k :: 0 <= k < |keys| && ParseGroupKey(keys[k]) == Some(n - 1))
    ensures forall k :: 0 <= k < |keys| && ParseGroupKey(keys[k]).Some? ==> ParseGroupKey(keys[k]).value < n
    ensures n == GroupFloor(groupSeq, keys)
  {
    var start := if groupSeq.Some? then groupSeq.value else 0;
    n := start;
    hide ParseGroupKey;
    assert keys[..0] == [];
    for i := 0 to |keys|
      invariant n >= start && (n == start || exists k :: 0 <= k < |keys| && ParseGroupKey(keys[k]) == Some(n - 1))
      invariant n == GroupFloor(groupSeq, keys[..i])
    {
      assert keys[..i + 1][..i] == keys[..i];
      var v := ParseGroupKey(keys[i]);
      if v.Some? && v.value + 1 > n {
        n := v.value + 1;
      }
    }
    assert keys[..|keys|] == keys;
  }

  /** No id minted from the floor up is taken; keys that are not canonical cannot equal a minted id. */
  lemma GroupIdsFresh(keys: seq<string>, floor: nat, n: nat)
    requires forall k :: 0 <= k < |keys| && ParseGroupKey(keys[k]).Some? ==> ParseGroupKey(keys[k]).value < floor
    requires floor <= n < MAX_SAFE_INTEGER
    ensures FormatGroupId(n) !in keys
  {
    var id := FormatGroupId(n);
    assert id[3..] == Decimal(n) && id[..3] == "grp";
    ValueOfDecimal(n);
    assert ParseGroupKey(id) == Some(n);
    hide ParseGroupKey;
    hide FormatGroupId;
  }

  lemma GroupIdInjective(m: nat, n: nat)
    requires FormatGroupId(m) == FormatGroupId(n)
    ensures m == n
  {
    assert FormatGroupId(m)[3..] == Decimal(m) && FormatGroupId(n)[3..] == Decimal(n);
    ValueOfDecimal(m);
    ValueOfDecimal(n);
  }
}

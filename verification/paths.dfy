/** The path grammar (internal/store/paths.go) and the printed form of a target
    key, "<kind>:<id>:<path>" (internal/api/probe.go, internal/state/engine.go). */
module Paths {
  import opened Wrappers
  import opened Store

  const ROLE_EDGE := "edge"
  const ROLE_INNER := "inner"
  const MAX_HOP_NAME := 32
  const MAX_INT := 0x7FFF_FFFF_FFFF_FFFF

  datatype Pieces = Pieces(head: string, tail: string)

  /** strings.Cut on a one-character separator. */
  function Cut(s: string, sep: char): (r: Option<Pieces>)
    ensures r.Some? <==> sep in s
    ensures r.Some? ==> s == r.value.head + [sep] + r.value.tail && sep !in r.value.head
  {
    if s == [] then None
    else if s[0] == sep then Some(Pieces([], s[1..]))
    else
      match Cut(s[1..], sep)
      case None => None
      case Some(p) => Some(Pieces([s[0]] + p.head, p.tail))
  }

  /** Cut splits at the first separator, so it undoes a join whose head has none. */
  lemma {:induction false} CutJoined(head: string, sep: char, tail: string)
    requires sep !in head
    ensures Cut(head + [sep] + tail, sep) == Some(Pieces(head, tail))
  {
    var s := head + [sep] + tail;
    if head == [] {
      assert s[1..] == tail;
    } else {
      assert s[1..] == head[1..] + [sep] + tail;
      CutJoined(head[1..], sep, tail);
      assert [head[0]] + head[1..] == head;
    }
  }

  predicate HopNameChar(c: char) {
    'a' <= c <= 'z' || '0' <= c <= '9' || c == '-'
  }

  predicate ValidHopName(name: string) {
    1 <= |name| <= MAX_HOP_NAME && forall c <- name :: HopNameChar(c)
  }

  function HopPath(role: string, name: string): Path { role + ":" + name }

  predicate IsHopPath(p: Path) {
    match Cut(p, ':')
    case None => false
    case Some(pieces) => (pieces.head == ROLE_EDGE || pieces.head == ROLE_INNER) && ValidHopName(pieces.tail)
  }

  predicate ValidPath(p: Path) {
    p == PATH_DIRECT || p == PATH_PROXY || IsHopPath(p)
  }

  /** The grammar accepts exactly the joined form of an edge or inner hop name. */
  lemma HopPathGrammar(role: string, name: string)
    requires ':' !in role
    ensures IsHopPath(role + ":" + name) <==>
            && (role == "edge" || role == "inner") && 1 <= |name| <= 32
            && forall c <- name :: 'a' <= c <= 'z' || '0' <= c <= '9' || c == '-'
  {
    CutJoined(role, ':', name);
    assert HopPath(role, name) == role + [':'] + name;
  }

  // ---- integers in decimal ----

  function Digit(d: nat): char
    requires d < 10
  {
    '0' + d as char
  }

  predicate IsDigit(c: char) { '0' <= c <= '9' }

  function Decimal(n: nat): (s: string)
    ensures s != [] && forall c <- s :: IsDigit(c)
  {
    if n < 10 then [Digit(n)] else Decimal(n / 10) + [Digit(n % 10)]
  }

  /** fmt's %d. */
  function Printed(n: int): string {
    if n < 0 then "-" + Decimal(-n) else Decimal(n)
  }

  function Number(s: string): nat
    requires forall c <- s :: IsDigit(c)
  {
    if s == [] then 0
    else
      assert IsDigit(s[|s| - 1]);
      Number(s[..|s| - 1]) * 10 + (s[|s| - 1] as int - '0' as int)
  }

  /** strconv.Atoi on a 64-bit machine: an optional sign, then digits. */
  function Atoi(s: string): Option<int> {
    if s == [] then None
    else
      var digits := if s[0] == '-' || s[0] == '+' then s[1..] else s;
      if digits == [] || exists c <- digits :: !IsDigit(c) then None
      else
        var n: int := if s[0] == '-' then 0 - Number(digits) else Number(digits);
        if -MAX_INT - 1 <= n <= MAX_INT then Some(n) else None
  }

  /** An id is read with or without a sign, as the number its digits make. */
  lemma AtoiReads(digits: string)
    requires digits != [] && (forall c <- digits :: IsDigit(c)) && Number(digits) <= 0x7FFF_FFFF_FFFF_FFFF
    ensures Atoi(digits) == Some(Number(digits)) == Atoi("+" + digits) && Atoi("-" + digits) == Some(0 - Number(digits) as int)
  {
    assert ("+" + digits)[1..] == digits && ("-" + digits)[1..] == digits;
    assert digits[0] in digits;
  }

  lemma {:induction false} NumberOfDecimal(n: nat)
    ensures Number(Decimal(n)) == n
  {
    if n >= 10 {
      NumberOfDecimal(n / 10);
      var s := Decimal(n);
      assert s[..|s| - 1] == Decimal(n / 10);
    }
  }

  lemma AtoiPrinted(n: int)
    requires -MAX_INT - 1 <= n <= MAX_INT
    ensures Atoi(Printed(n)) == Some(n)
  {
    NumberOfDecimal(if n < 0 then -n else n);
    var s := Printed(n);
    if n < 0 {
      assert s[1..] == Decimal(-n);
    } else {
      assert IsDigit(s[0]);
    }
  }

  lemma PrintedIsInjective(m: int, n: int)
    requires Printed(m) == Printed(n)
    ensures m == n
  {
    NumberOfDecimal(if m < 0 then -m else m);
    NumberOfDecimal(if n < 0 then -n else n);
    if m < 0 {
      assert Printed(m)[0] == '-' && Printed(m)[1..] == Decimal(-m);
    }
    if n < 0 {
      assert Printed(n)[0] == '-' && Printed(n)[1..] == Decimal(-n);
    }
    if m >= 0 {
      assert IsDigit(Printed(m)[0]);
    }
    if n >= 0 {
      assert IsDigit(Printed(n)[0]);
    }
  }

  lemma PrintedHasNoColon(n: int)
    ensures ':' !in Printed(n)
  {
  }

  // ---- target keys ----

  const KIND_XRAY := "xray"

  predicate ValidKey(k: TargetKey) {
    (k.kind == KIND_XRAY || k.kind == KIND_AWG) && 0 <= k.inbound <= MAX_INT && ValidPath(k.path)
  }

  function Print(k: TargetKey): string {
    k.kind + ":" + Printed(k.inbound) + ":" + k.path
  }

  /** parseTarget: split into at most three parts, then check each. */
  function ParseTarget(target: string): (r: Option<TargetKey>)
    ensures r.Some? ==> ValidKey(r.value)
  {
    match Cut(target, ':')
    case None => None
    case Some(first) =>
      match Cut(first.tail, ':')
      case None => None
      case Some(second) =>
        if first.head != KIND_XRAY && first.head != KIND_AWG then None
        else if !ValidPath(second.tail) then None
        else
          match Atoi(second.head)
          case None => None
          case Some(id) => if id < 0 then None else Some(TargetKey(first.head, id, second.tail))
  }

  lemma PrintSplits(k: TargetKey)
    requires ':' !in k.kind
    ensures Cut(Print(k), ':') == Some(Pieces(k.kind, Printed(k.inbound) + ":" + k.path))
    ensures Cut(Printed(k.inbound) + ":" + k.path, ':') == Some(Pieces(Printed(k.inbound), k.path))
  {
    var rest := Printed(k.inbound) + ":" + k.path;
    PrintedHasNoColon(k.inbound);
    CutJoined(k.kind, ':', rest);
    CutJoined(Printed(k.inbound), ':', k.path);
    assert Print(k) == k.kind + [':'] + rest;
    assert rest == Printed(k.inbound) + [':'] + k.path;
  }

  /** A printed key parses back to itself, even though a hop's path has a ':' of
      its own. */
  lemma ParsePrinted(k: TargetKey)
    requires ValidKey(k)
    ensures ParseTarget(Print(k)) == Some(k)
  {
    PrintSplits(k);
    AtoiPrinted(k.inbound);
  }

  /** The printed form names one key only, whatever its id and path. */
  lemma PrintIsInjective(j: TargetKey, k: TargetKey)
    requires ':' !in j.kind && ':' !in k.kind
    requires Print(j) == Print(k)
    ensures j == k
  {
    PrintSplits(j);
    PrintSplits(k);
    PrintedIsInjective(j.inbound, k.inbound);
  }

  /** rejectedKeys: the keys of the config whose printed form was named. */
  method RejectedKeys(keys: set<TargetKey>, rejected: seq<string>) returns (out: set<TargetKey>)
    ensures out == RejectedOf(keys, rejected)
  {
    var named: set<string> := {};
    for i := 0 to |rejected|
      invariant named == set r | r in rejected[..i]
    {
      named := named + {rejected[i]};
      assert rejected[..i + 1] == rejected[..i] + [rejected[i]];
    }
    assert rejected[..|rejected|] == rejected;
    out := {};
    var rest := keys;
    while rest != {}
      invariant rest <= keys
      invariant out == set k | k in keys - rest && Print(k) in named
      decreases rest
    {
      var k :| k in rest;
      if Print(k) in named {
        out := out + {k};
      }
      rest := rest - {k};
    }
  }

  function RejectedOf(keys: set<TargetKey>, rejected: seq<string>): set<TargetKey> {
    set k | k in keys && Print(k) in rejected
  }

  /** Naming keys rejects exactly the named ones that are in the config. */
  lemma RejectedAreTheNamed(keys: set<TargetKey>, named: seq<TargetKey>, printed: seq<string>)
    requires forall k <- keys :: ':' !in k.kind
    requires forall k <- named :: ':' !in k.kind
    requires |printed| == |named| && forall i :: 0 <= i < |named| ==> printed[i] == Print(named[i])
    ensures RejectedOf(keys, printed) == set k | k in keys && k in named
  {
    forall k | k in keys
      ensures Print(k) in printed <==> k in named
    {
      if Print(k) in printed {
        var i :| 0 <= i < |printed| && printed[i] == Print(k);
        PrintIsInjective(named[i], k);
      }
      if k in named {
        var i :| 0 <= i < |named| && named[i] == k;
        assert printed[i] == Print(k);
      }
    }
  }
}

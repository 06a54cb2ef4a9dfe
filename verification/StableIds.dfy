/** Identifier framing: length prefixes, separators, and an idealised collision-free digest. */
module StableIds {
  import opened Prelude

  // ---------------------------------------------------------------- decimal numerals

  function Numeral(d: nat): char
    requires d < 10
  {
    ('0' as int + d) as char
  }

  // str(n) for a non-negative n.
  function Decimal(n: nat): string {
    if n < 10 then [Numeral(n)] else Decimal(n / 10) + [Numeral(n % 10)]
  }

  predicate AllDigits(s: string) {
    forall i :: 0 <= i < |s| ==> '0' <= s[i] <= '9'
  }

  function NumeralValue(s: string): nat
    requires AllDigits(s)
  {
    if s == "" then 0 else NumeralValue(s[..|s| - 1]) * 10 + (s[|s| - 1] as int - '0' as int)
  }

  lemma {:induction false} DecimalReads(n: nat)
    ensures AllDigits(Decimal(n)) && Decimal(n) != "" && NumeralValue(Decimal(n)) == n
  {
    var s := Decimal(n);
    if n < 10 {
      assert s[..|s| - 1] == "";
      assert NumeralValue("") == 0;
    } else {
      DecimalReads(n / 10);
      assert s[..|s| - 1] == Decimal(n / 10);
    }
  }

  lemma {:induction false} DecimalInjective(m: nat, n: nat)
    requires Decimal(m) == Decimal(n)
    ensures m == n
  {
    DecimalReads(m);
    DecimalReads(n);
  }

  // ---------------------------------------------------------------- length-prefixed frames

  function Frame(parts: seq<string>): string {
    if parts == [] then "" else Decimal(|parts[0]|) + ":" + parts[0] + Frame(parts[1..])
  }

  function IndexOf(s: string, c: char): (i: nat)
    ensures i <= |s| && c !in s[..i] && (i < |s| ==> s[i] == c)
  {
    if s == "" then 0
    else if s[0] == c then 0
    else
      var i := IndexOf(s[1..], c);
      assert s[..i + 1] == [s[0]] + s[1..][..i];
      i + 1
  }

  // A reader for frames, written independently of Frame: digits, a colon, that many characters.
  function Unframe(s: string): Option<seq<string>>
    decreases |s|
  {
    if s == "" then Some([])
    else
      var colon := IndexOf(s, ':');
      if colon == |s| || colon == 0 || !AllDigits(s[..colon]) then None
      else
        var end := colon + 1 + NumeralValue(s[..colon]);
        if end > |s| then None
        else
          match Unframe(s[end..])
          case None => None
          case Some(rest) => Some([s[colon + 1..end]] + rest)
  }

  lemma IndexOfFirst(prefix: string, c: char, rest: string)
    requires c !in prefix
    ensures IndexOf(prefix + [c] + rest, c) == |prefix|
  {
    var s := prefix + [c] + rest;
    var i := IndexOf(s, c);
    assert s[|prefix|] == c && forall j :: 0 <= j < |prefix| ==> s[j] == prefix[j];
    assert forall j :: 0 <= j < i ==> s[j] == s[..i][j];
  }

  // Framing is uniquely decodable.
  lemma {:induction false} FrameRoundTrip(parts: seq<string>)
    ensures Unframe(Frame(parts)) == Some(parts)
  {
    if parts != [] {
      var head, body, tail := Decimal(|parts[0]|), parts[0], Frame(parts[1..]);
      var s := Frame(parts);
      DecimalReads(|body|);
      assert ':' !in head;
      assert s == head + [':'] + (body + tail);
      IndexOfFirst(head, ':', body + tail);
      var colon := |head|;
      assert s[..colon] == head;
      var end := colon + 1 + |body|;
      assert s[end..] == tail && s[colon + 1..end] == body;
      FrameRoundTrip(parts[1..]);
      assert parts == [body] + parts[1..];
    }
  }

  lemma FrameInjective(a: seq<string>, b: seq<string>)
    requires Frame(a) == Frame(b)
    ensures a == b
  {
    FrameRoundTrip(a);
    FrameRoundTrip(b);
  }

  // ---------------------------------------------------------------- idealised digest

  // SHA-256 idealised: hexadecimal text, and never a collision.
  function HexDigit(n: nat): char
    requires n < 16
  {
    if n < 10 then Numeral(n) else ('a' as int + (n - 10)) as char
  }

  // The lowest hexadecimal digits of n, lowest first.
  function HexDigits(n: nat, width: nat): string {
    if width == 0 then "" else [HexDigit(n % 16)] + HexDigits(n / 16, width - 1)
  }

  function HexBlock(c: char): (s: string)
    ensures |s| == 6
  {
    HexDigitsLength(c as int, 6);
    HexDigits(c as int, 6)
  }

  lemma {:induction false} HexDigitsLength(n: nat, width: nat)
    ensures |HexDigits(n, width)| == width
  {
    if width > 0 {
      HexDigitsLength(n / 16, width - 1);
    }
  }

  lemma {:induction false} HexDigitsAreHex(n: nat, width: nat)
    ensures HexText(HexDigits(n, width))
  {
    if width > 0 {
      HexDigitsAreHex(n / 16, width - 1);
    }
  }

  function Power16(width: nat): nat {
    if width == 0 then 1 else 16 * Power16(width - 1)
  }

  lemma {:induction false} HexDigitsInjective(m: nat, n: nat, width: nat)
    requires m < Power16(width) && n < Power16(width)
    requires HexDigits(m, width) == HexDigits(n, width)
    ensures m == n
  {
    if width > 0 {
      var a, b := HexDigits(m, width), HexDigits(n, width);
      assert a[0] == b[0] && a[1..] == HexDigits(m / 16, width - 1) && b[1..] == HexDigits(n / 16, width - 1);
      HexDigitsInjective(m / 16, n / 16, width - 1);
    }
  }

  function Digest(s: string): string {
    if s == "" then "" else HexBlock(s[0]) + Digest(s[1..])
  }

  predicate HexText(s: string) {
    forall i :: 0 <= i < |s| ==> '0' <= s[i] <= '9' || 'a' <= s[i] <= 'f'
  }

  lemma {:induction false} DigestIsHex(s: string)
    ensures HexText(Digest(s))
  {
    if s != "" {
      HexDigitsAreHex(s[0] as int, 6);
      DigestIsHex(s[1..]);
    }
  }

  lemma HexBlockInjective(c: char, d: char)
    requires HexBlock(c) == HexBlock(d)
    ensures c == d
  {
    assert Power16(6) == 0x1000000;
    HexDigitsInjective(c as int, d as int, 6);
  }

  lemma {:induction false} DigestInjective(a: string, b: string)
    requires Digest(a) == Digest(b)
    ensures a == b
  {
    if a != "" && b != "" {
      var x, y := Digest(a), Digest(b);
      assert x[..6] == HexBlock(a[0]) && x[6..] == Digest(a[1..]);
      assert y[..6] == HexBlock(b[0]) && y[6..] == Digest(b[1..]);
      HexBlockInjective(a[0], b[0]);
      DigestInjective(a[1..], b[1..]);
      assert a == [a[0]] + a[1..] && b == [b[0]] + b[1..];
    }
  }

  // ---------------------------------------------------------------- the three id builders

  function StableId(prefix: string, parts: seq<string>): string {
    prefix + "_" + Digest(Frame(parts))
  }

  lemma StableIdInjective(prefix: string, a: seq<string>, b: seq<string>)
    requires StableId(prefix, a) == StableId(prefix, b)
    ensures a == b
  {
    var n := |prefix| + 1;
    assert StableId(prefix, a)[n..] == Digest(Frame(a));
    assert StableId(prefix, b)[n..] == Digest(Frame(b));
    DigestInjective(Frame(a), Frame(b));
    FrameInjective(a, b);
  }

  function DocumentId(source: string, resource: string, recordId: string): string {
    StableId("doc", [source, resource, recordId])
  }

  function ChunkId(documentId: string, ordinal: int, contentHash: string): Result<string> {
    if ordinal < 0 then Raise(ValueError)
    else Ok(StableId("chk", [documentId, Decimal(ordinal), contentHash]))
  }

  lemma ChunkIdIdentifies(d1: string, o1: nat, h1: string, d2: string, o2: nat, h2: string)
    ensures ChunkId(d1, o1, h1) == ChunkId(d2, o2, h2) <==> d1 == d2 && o1 == o2 && h1 == h2
  {
    var a, b := [d1, Decimal(o1), h1], [d2, Decimal(o2), h2];
    if ChunkId(d1, o1, h1) == ChunkId(d2, o2, h2) {
      StableIdInjective("chk", a, b);
      assert a[0] == b[0] && a[1] == b[1] && a[2] == b[2];
      DecimalInjective(o1, o2);
    }
  }

  datatype MemoryType = Working | Episodic | Preference | Semantic

  function MemoryTypeValue(t: MemoryType): string {
    match t
    case Working => "working"
    case Episodic => "episodic"
    case Preference => "preference"
    case Semantic => "semantic"
  }

  datatype MemoryNamespace = MemoryNamespace(
    tenant: string, environment: string, workflow: string, workflowRevision: string,
    user: string, session: string, agent: string)
  {
    function Components(): seq<string> {
      [tenant, environment, workflow, workflowRevision, user, session, agent]
    }

    function Key(): string {
      Join('/', Components())
    }
  }

  function MemoryId(namespace: MemoryNamespace, memoryType: MemoryType, content: string): string {
    StableId("mem", [namespace.Key(), MemoryTypeValue(memoryType), content])
  }

  // ---------------------------------------------------------------- separator joins

  // sep.join(parts)
  function Join(sep: char, parts: seq<string>): string {
    if parts == [] then ""
    else if |parts| == 1 then parts[0]
    else Join(sep, parts[..|parts| - 1]) + [sep] + parts[|parts| - 1]
  }

  lemma LastSeparatorSplits(sep: char, a: string, x: string, b: string, y: string)
    requires sep !in x && sep !in y
    requires a + [sep] + x == b + [sep] + y
    ensures a == b && x == y
  {
    var s := a + [sep] + x;
    assert s[|a|] == sep && s[|b|] == sep;
    assert forall i :: |a| < i < |s| ==> s[i] == x[i - |a| - 1];
    assert forall i :: |b| < i < |s| ==> s[i] == y[i - |b| - 1];
    assert |a| == |b|;
    assert a == s[..|a|] && b == s[..|b|];
    assert x == s[|a| + 1..] && y == s[|b| + 1..];
  }

  // Only the first component may contain the separator.
  predicate JoinSafe(sep: char, parts: seq<string>) {
    forall i :: 1 <= i < |parts| ==> sep !in parts[i]
  }

  lemma {:induction false} JoinInjective(sep: char, a: seq<string>, b: seq<string>)
    requires |a| == |b| && JoinSafe(sep, a) && JoinSafe(sep, b)
    requires Join(sep, a) == Join(sep, b)
    ensures a == b
  {
    var n := |a|;
    if n > 1 {
      LastSeparatorSplits(sep, Join(sep, a[..n - 1]), a[n - 1], Join(sep, b[..n - 1]), b[n - 1]);
      JoinInjective(sep, a[..n - 1], b[..n - 1]);
      assert a == a[..n - 1] + [a[n - 1]] && b == b[..n - 1] + [b[n - 1]];
    }
  }

  // ---------------------------------------------------------------- when a join is ambiguous

  // Where a part ends in the joined text, and where it starts.
  function End(sep: char, parts: seq<string>, i: nat): nat
    requires i < |parts|
  {
    |Join(sep, parts[..i + 1])|
  }

  function Start(sep: char, parts: seq<string>, i: nat): nat
    requires i < |parts|
  {
    if i == 0 then 0 else End(sep, parts, i - 1) + 1
  }

  lemma {:induction false} PartOfJoin(sep: char, parts: seq<string>, i: nat)
    requires i < |parts|
    ensures var s, e := Start(sep, parts, i), End(sep, parts, i);
      && s <= e == s + |parts[i]| && e <= |Join(sep, parts)|
      && Join(sep, parts)[s..e] == parts[i]
      && (if i == |parts| - 1 then e == |Join(sep, parts)| else e < |Join(sep, parts)| && Join(sep, parts)[e] == sep)
  {
    var n := |parts|;
    if n == 1 {
      assert parts[..1] == parts;
    } else {
      var init := parts[..n - 1];
      assert Join(sep, parts) == Join(sep, init) + [sep] + parts[n - 1];
      if i == n - 1 {
        assert parts[..n] == parts && parts[..i] == init;
      } else {
        PartOfJoin(sep, init, i);
        SamePlacesInPrefix(sep, parts, i);
        var s, e := Start(sep, parts, i), End(sep, parts, i);
        assert Join(sep, parts)[..|Join(sep, init)|] == Join(sep, init);
        assert Join(sep, parts)[s..e] == Join(sep, init)[s..e];
        if i == n - 2 {
          assert parts[..i + 1] == init;
        }
      }
    }
  }

  lemma SamePlacesInPrefix(sep: char, parts: seq<string>, i: nat)
    requires i + 1 < |parts|
    ensures var init := parts[..|parts| - 1];
      Start(sep, parts, i) == Start(sep, init, i) && End(sep, parts, i) == End(sep, init, i)
  {
    var init := parts[..|parts| - 1];
    assert init[..i + 1] == parts[..i + 1] && (i > 0 ==> init[..i] == parts[..i]);
  }

  predicate AllNonBlank(parts: seq<string>) {
    forall i :: 0 <= i < |parts| ==> NonBlank(parts[i])
  }

  // Some part holds the separator, and cutting the part there leaves something that is not blank
  // on the side that stays when the other side is handed to its neighbour.
  predicate Shiftable(sep: char, parts: seq<string>) {
    exists i, j :: 0 <= i < |parts| && 0 <= j < |parts[i]| && ShiftsAt(sep, parts, i, j)
  }

  predicate ShiftsAt(sep: char, parts: seq<string>, i: nat, j: int)
    requires i < |parts|
  {
    && 0 <= j < |parts[i]| && parts[i][j] == sep
    && ((i < |parts| - 1 && NonBlank(parts[i][..j])) || (i > 0 && NonBlank(parts[i][j + 1..])))
  }

  lemma NonBlankWithin(s: string, from: nat, to: nat)
    requires from <= to <= |s| && NonBlank(s[from..to])
    ensures NonBlank(s)
  {
    var i :| 0 <= i < |s[from..to]| && !IsSpace(s[from..to][i]);
    assert s[from + i] == s[from..to][i];
  }

  lemma {:induction false} JoinShift(sep: char, a: seq<string>, b: seq<string>, i: nat, x: string, y: string, z: string)
    requires |a| == |b| && i + 1 < |a|
    requires a[i] == x + [sep] + y && a[i + 1] == z && b[i] == x && b[i + 1] == y + [sep] + z
    requires forall k :: 0 <= k < |a| && k != i && k != i + 1 ==> a[k] == b[k]
    ensures Join(sep, a) == Join(sep, b)
  {
    var n := |a|;
    if i + 1 < n - 1 {
      JoinShift(sep, a[..n - 1], b[..n - 1], i, x, y, z);
    } else {
      var p, q := a[..n - 1], b[..n - 1];
      assert p[..n - 2] == q[..n - 2];
      var head := if n == 2 then "" else Join(sep, p[..n - 2]) + [sep];
      assert Join(sep, p) == head + (x + [sep] + y) && Join(sep, q) == head + x;
      assert head + (x + [sep] + y) + [sep] + z == head + x + [sep] + (y + [sep] + z);
    }
  }

  // Handing one side of the cut to the neighbour gives another list with the same join.
  lemma ShiftGivesTwin(sep: char, parts: seq<string>, i: nat, j: int) returns (twin: seq<string>)
    requires AllNonBlank(parts) && !IsSpace(sep) && i < |parts| && ShiftsAt(sep, parts, i, j)
    ensures |twin| == |parts| && AllNonBlank(twin) && twin != parts && Join(sep, twin) == Join(sep, parts)
  {
    var x, y := parts[i][..j], parts[i][j + 1..];
    assert parts[i] == x + [sep] + y;
    if i < |parts| - 1 && NonBlank(x) {
      var z := parts[i + 1];
      twin := parts[i := x][i + 1 := y + [sep] + z];
      assert twin[i + 1][|y|] == sep;
      JoinShift(sep, parts, twin, i, x, y, z);
    } else {
      var z := parts[i - 1];
      twin := parts[i := y][i - 1 := z + [sep] + x];
      assert twin[i - 1][|z|] == sep;
      JoinShift(sep, twin, parts, i - 1, z, x, y);
    }
  }

  lemma SamePlacesSameParts(sep: char, a: seq<string>, b: seq<string>)
    requires |a| == |b| && Join(sep, a) == Join(sep, b)
    requires forall i :: 0 <= i < |a| ==> End(sep, a, i) == End(sep, b, i)
    ensures a == b
  {
    forall i | 0 <= i < |a| ensures a[i] == b[i] {
      PartOfJoin(sep, a, i);
      PartOfJoin(sep, b, i);
    }
  }

  lemma NestedSlice(text: string, s: nat, e: nat, from: nat, to: nat)
    requires s <= e <= |text| && from <= to <= e - s
    ensures text[s..e][from..to] == text[s + from..s + to]
  {
    var inner, outer := text[s..e][from..to], text[s + from..s + to];
    forall k | 0 <= k < |inner| ensures inner[k] == outer[k] {
    }
  }

  lemma SliceAt(text: string, s: nat, e: nat, k: nat)
    requires s <= k < e <= |text|
    ensures text[s..e][k - s] == text[k]
  {
    var prefix := text[..e];
    assert text[s..e] == prefix[s..];
  }

  lemma CutInside(text: string, s: nat, e: nat, from: nat, to: nat)
    requires s <= from <= to < e <= |text| && NonBlank(text[from..to])
    ensures text[s..e][to - s] == text[to] && NonBlank(text[s..e][..to - s])
  {
    SliceAt(text, s, e, to);
    NestedSlice(text, s, e, 0, to - s);
    NestedSlice(text, s, to, from - s, to - s);
    NonBlankWithin(text[s..to], from - s, to - s);
  }

  lemma CutAfter(text: string, s: nat, e: nat, cut: nat)
    requires s <= cut < e <= |text|
    ensures text[s..e][cut - s] == text[cut] && text[s..e][cut - s + 1..] == text[cut + 1..e]
  {
    SliceAt(text, s, e, cut);
    NestedSlice(text, s, e, cut - s + 1, e - s);
    var part := text[s..e];
    assert part[cut - s + 1..e - s] == part[cut - s + 1..];
  }

  // A part of b ends inside a part of a, and b's part begins no earlier: a can be cut there.
  lemma EarlyEndShifts(sep: char, a: seq<string>, b: seq<string>, i: nat)
    requires |a| == |b| && AllNonBlank(b) && Join(sep, a) == Join(sep, b) && i < |a|
    requires Start(sep, a, i) <= Start(sep, b, i) && End(sep, b, i) < End(sep, a, i)
    ensures Shiftable(sep, a)
  {
    PartOfJoin(sep, a, i);
    PartOfJoin(sep, b, i);
    var s, from, to := Start(sep, a, i), Start(sep, b, i), End(sep, b, i);
    var j := to - s;
    CutInside(Join(sep, a), s, End(sep, a, i), from, to);
    assert ShiftsAt(sep, a, i, j);
  }

  // A part of b begins inside a part of a and both end together: a can be cut there.
  lemma LateStartShifts(sep: char, a: seq<string>, b: seq<string>, i: nat)
    requires |a| == |b| && AllNonBlank(b) && Join(sep, a) == Join(sep, b) && i + 1 < |a|
    requires End(sep, a, i) < End(sep, b, i) && End(sep, a, i + 1) == End(sep, b, i + 1)
    ensures Shiftable(sep, a)
  {
    PartOfJoin(sep, a, i + 1);
    PartOfJoin(sep, b, i + 1);
    PartOfJoin(sep, b, i);
    var s, cut := Start(sep, a, i + 1), End(sep, b, i);
    CutAfter(Join(sep, a), s, End(sep, a, i + 1), cut);
    assert ShiftsAt(sep, a, i + 1, cut - s);
  }

  lemma {:induction false} FirstEarlier(sep: char, a: seq<string>, b: seq<string>, i: nat) returns (k: nat)
    requires |a| == |b| && i < |a| && End(sep, b, i) < End(sep, a, i)
    ensures k < |a| && End(sep, b, k) < End(sep, a, k) && Start(sep, a, k) <= Start(sep, b, k)
  {
    if i == 0 || End(sep, a, i - 1) <= End(sep, b, i - 1) {
      k := i;
    } else {
      k := FirstEarlier(sep, a, b, i - 1);
    }
  }

  lemma {:induction false} LastLater(sep: char, a: seq<string>, b: seq<string>, i: nat) returns (k: nat)
    requires |a| == |b| && i < |a| && End(sep, a, i) < End(sep, b, i)
    requires End(sep, a, |a| - 1) == End(sep, b, |a| - 1)
    requires forall m :: 0 <= m < |a| ==> End(sep, a, m) <= End(sep, b, m)
    ensures k + 1 < |a| && End(sep, a, k) < End(sep, b, k) && End(sep, a, k + 1) == End(sep, b, k + 1)
    decreases |a| - i
  {
    if End(sep, a, i + 1) == End(sep, b, i + 1) {
      k := i;
    } else {
      k := LastLater(sep, a, b, i + 1);
    }
  }

  lemma TwinMeansShiftable(sep: char, a: seq<string>, b: seq<string>)
    requires a != [] && |a| == |b| && AllNonBlank(b) && Join(sep, a) == Join(sep, b) && a != b
    ensures Shiftable(sep, a)
  {
    if forall i :: 0 <= i < |a| ==> End(sep, a, i) == End(sep, b, i) {
      SamePlacesSameParts(sep, a, b);
    } else if i :| 0 <= i < |a| && End(sep, b, i) < End(sep, a, i) {
      var k := FirstEarlier(sep, a, b, i);
      EarlyEndShifts(sep, a, b, k);
    } else {
      var i :| 0 <= i < |a| && End(sep, a, i) != End(sep, b, i);
      assert a[..|a|] == a && b[..|b|] == b;
      var k := LastLater(sep, a, b, i);
      LateStartShifts(sep, a, b, k);
    }
  }

  // A list of parts that are not blank shares its join with another such list of the same length
  // exactly when it can be shifted.
  lemma JoinIsSharedExactly(sep: char, parts: seq<string>)
    requires parts != [] && AllNonBlank(parts) && !IsSpace(sep)
    ensures (exists twin ::
               |twin| == |parts| && AllNonBlank(twin) && twin != parts && Join(sep, twin) == Join(sep, parts))
       <==> Shiftable(sep, parts)
  {
    if Shiftable(sep, parts) {
      var i, j :| 0 <= i < |parts| && ShiftsAt(sep, parts, i, j);
      var twin := ShiftGivesTwin(sep, parts, i, j);
    }
    if twin :| |twin| == |parts| && AllNonBlank(twin) && twin != parts && Join(sep, twin) == Join(sep, parts) {
      TwinMeansShiftable(sep, parts, twin);
    }
  }

  // ---------------------------------------------------------------- the representative of a join

  lemma {:induction false} LastIndex(c: char, s: string) returns (j: nat)
    requires c in s
    ensures j < |s| && s[j] == c && c !in s[j + 1..]
  {
    var n := |s| - 1;
    if s[n] == c {
      j := n;
    } else {
      assert s == s[..n] + [s[n]];
      j := LastIndex(c, s[..n]);
      assert s[j + 1..] == s[..n][j + 1..] + [s[n]];
    }
  }

  lemma JoinSnoc(sep: char, init: seq<string>, last: string)
    requires init != []
    ensures Join(sep, init + [last]) == Join(sep, init) + [sep] + last
    ensures JoinSafe(sep, init) && sep !in last ==> JoinSafe(sep, init + [last])
  {
    assert (init + [last])[..|init|] == init;
  }

  // The last part cut in two, its head handed to the part before.
  lemma CutLast(sep: char, init: seq<string>, x: string, y: string) returns (longer: seq<string>)
    requires init != []
    ensures |longer| == |init| && Join(sep, longer) + [sep] + y == Join(sep, init) + [sep] + (x + [sep] + y)
  {
    var n := |init| - 1;
    longer := init[n := init[n] + [sep] + x];
    JoinShift(sep, longer + [y], init + [x + [sep] + y], n, init[n], x, y);
    JoinSnoc(sep, longer, y);
    JoinSnoc(sep, init, x + [sep] + y);
  }

  // Every list of parts has the join of one whose parts after the first hold no separator.
  lemma {:induction false} SafeRepresentative(sep: char, parts: seq<string>) returns (safe: seq<string>)
    requires parts != []
    ensures |safe| == |parts| && JoinSafe(sep, safe) && Join(sep, safe) == Join(sep, parts)
    decreases |parts|
  {
    if |parts| == 1 {
      safe := parts;
    } else {
      var init, last := parts[..|parts| - 1], parts[|parts| - 1];
      var done, rest := init, last;
      if sep in last {
        var j := LastIndex(sep, last);
        rest := last[j + 1..];
        assert last == last[..j] + [sep] + rest;
        done := CutLast(sep, init, last[..j], rest);
      }
      done := SafeRepresentative(sep, done);
      safe := done + [rest];
      JoinSnoc(sep, done, rest);
      assert parts == init + [last];
      JoinSnoc(sep, init, last);
    }
  }

  // ---------------------------------------------------------------- what a memory id tells apart

  function NamespaceOf(parts: seq<string>): (n: MemoryNamespace)
    requires |parts| == 7
    ensures n.Components() == parts
  {
    MemoryNamespace(parts[0], parts[1], parts[2], parts[3], parts[4], parts[5], parts[6])
  }

  // What the namespace's constructor accepts.
  predicate Constructible(n: MemoryNamespace) {
    AllNonBlank(n.Components())
  }

  lemma SameComponents(n: MemoryNamespace, o: MemoryNamespace)
    ensures n.Components() == o.Components() <==> n == o
  {
    var p, q := n.Components(), o.Components();
    if p == q {
      assert p[0] == q[0] && p[1] == q[1] && p[2] == q[2] && p[3] == q[3];
      assert p[4] == q[4] && p[5] == q[5] && p[6] == q[6];
    }
  }

  // A memory id is the key, the type and the content, and nothing more of the namespace.
  lemma MemoryIdIdentifies(
    n1: MemoryNamespace, t1: MemoryType, c1: string, n2: MemoryNamespace, t2: MemoryType, c2: string)
    ensures MemoryId(n1, t1, c1) == MemoryId(n2, t2, c2) <==> n1.Key() == n2.Key() && t1 == t2 && c1 == c2
  {
    if MemoryId(n1, t1, c1) == MemoryId(n2, t2, c2) {
      var a, b := [n1.Key(), MemoryTypeValue(t1), c1], [n2.Key(), MemoryTypeValue(t2), c2];
      StableIdInjective("mem", a, b);
      assert a[0] == b[0] && a[1] == b[1] && a[2] == b[2];
      MemoryTypeValueInjective(t1, t2);
    }
  }

  lemma MemoryTypeValueInjective(a: MemoryType, b: MemoryType)
    requires MemoryTypeValue(a) == MemoryTypeValue(b)
    ensures a == b
  {
    var x, y := MemoryTypeValue(a), MemoryTypeValue(b);
    assert x[0] == y[0];
  }

  // A namespace shares its key with another one exactly when one of its components can be cut at
  // a slash and the rest handed to the component beside it.
  lemma KeyIsSharedExactly(n: MemoryNamespace)
    requires Constructible(n)
    ensures (exists o :: Constructible(o) && o != n && o.Key() == n.Key()) <==> Shiftable('/', n.Components())
  {
    var parts := n.Components();
    JoinIsSharedExactly('/', parts);
    if o :| Constructible(o) && o != n && o.Key() == n.Key() {
      SameComponents(n, o);
      assert Join('/', o.Components()) == Join('/', parts);
    }
    if Shiftable('/', parts) {
      var twin :| |twin| == |parts| && AllNonBlank(twin) && twin != parts && Join('/', twin) == Join('/', parts);
      var o := NamespaceOf(twin);
      SameComponents(n, o);
      assert Constructible(o) && o.Key() == Join('/', twin);
    }
  }

  // Blank components aside, every key belongs to exactly one namespace without a slash after the
  // tenant: another namespace's key is such a one's exactly when it hides a slash there.
  lemma SlashFreeTwinExactly(n: MemoryNamespace)
    ensures (exists o: MemoryNamespace :: o != n && JoinSafe('/', o.Components()) && o.Key() == n.Key())
       <==> !JoinSafe('/', n.Components())
  {
    if JoinSafe('/', n.Components()) {
      forall o: MemoryNamespace | JoinSafe('/', o.Components()) && o.Key() == n.Key() ensures o == n {
        JoinInjective('/', o.Components(), n.Components());
        SameComponents(n, o);
      }
    } else {
      var safe := SafeRepresentative('/', n.Components());
      var o := NamespaceOf(safe);
      assert o.Key() == n.Key() && o != n;
    }
  }

  // So memory ids separate a namespace from every other one exactly when it cannot be cut so.
  lemma MemoryIdsSeparateExactly(n: MemoryNamespace)
    requires Constructible(n)
    ensures (forall o, t1, c1, t2, c2 ::
               Constructible(o) && MemoryId(n, t1, c1) == MemoryId(o, t2, c2) ==> n == o && t1 == t2 && c1 == c2)
       <==> !Shiftable('/', n.Components())
  {
    KeyIsSharedExactly(n);
    if Shiftable('/', n.Components()) {
      var o :| Constructible(o) && o != n && o.Key() == n.Key();
      MemoryIdIdentifies(n, Working, "", o, Working, "");
    } else {
      forall o, t1, c1, t2, c2 | Constructible(o) && MemoryId(n, t1, c1) == MemoryId(o, t2, c2)
        ensures n == o && t1 == t2 && c1 == c2
      {
        MemoryIdIdentifies(n, t1, c1, o, t2, c2);
      }
    }
  }

  // There are such namespaces.
  lemma ShiftableNamespaceExists()
    ensures var n := MemoryNamespace("t", "prod", "w", "v1", "u/s", "x", "g");
      Constructible(n) && Shiftable('/', n.Components())
  {
    var parts := MemoryNamespace("t", "prod", "w", "v1", "u/s", "x", "g").Components();
    assert forall i :: 0 <= i < 7 ==> !IsSpace(parts[i][0]);
    assert parts[4][1] == '/' && parts[4][..1] == "u" && !IsSpace("u"[0]);
    assert ShiftsAt('/', parts, 4, 1);
  }

  // Otherwise some other namespace has all of its memory ids.
  lemma SlashMergesNamespaces(n: MemoryNamespace) returns (o: MemoryNamespace)
    requires Constructible(n) && Shiftable('/', n.Components())
    ensures Constructible(o) && o != n
    ensures forall t, content :: MemoryId(o, t, content) == MemoryId(n, t, content)
  {
    KeyIsSharedExactly(n);
    o :| Constructible(o) && o != n && o.Key() == n.Key();
  }

  // ---------------------------------------------------------------- index ids and delivery ids

  // The backend row id of a chunk: tenant and chunk id around a colon.
  function RowId(tenant: string, chunkId: string): string {
    Join(':', [tenant, chunkId])
  }

  lemma RowIdIdentifies(t1: string, c1: string, t2: string, c2: string)
    requires ':' !in c1 && ':' !in c2
    ensures RowId(t1, c1) == RowId(t2, c2) <==> t1 == t2 && c1 == c2
  {
    var a, b := [t1, c1], [t2, c2];
    if RowId(t1, c1) == RowId(t2, c2) {
      JoinInjective(':', a, b);
      assert a[0] == b[0] && a[1] == b[1];
    }
  }

  // Every chunk id the service mints is colon-free, whatever its parts contain.
  lemma ChunkIdHasNoColon(documentId: string, ordinal: nat, contentHash: string)
    ensures ':' !in ChunkId(documentId, ordinal, contentHash).value
  {
    DigestIsHex(Frame([documentId, Decimal(ordinal), contentHash]));
  }

  function DeliveryId(correlationId: string, system: string, recordId: string, version: nat): string {
    "showcase_" + Digest(Join(':', [correlationId, system, recordId, Decimal(version)]))
  }

  // A delivery id is the version and the joined text of the rest, and nothing more.
  lemma DeliveryIdIdentifies(
    k1: string, s1: string, r1: string, v1: nat, k2: string, s2: string, r2: string, v2: nat)
    ensures DeliveryId(k1, s1, r1, v1) == DeliveryId(k2, s2, r2, v2)
       <==> v1 == v2 && Join(':', [k1, s1, r1]) == Join(':', [k2, s2, r2])
  {
    var a, b := [k1, s1, r1, Decimal(v1)], [k2, s2, r2, Decimal(v2)];
    assert a[..3] == [k1, s1, r1] && b[..3] == [k2, s2, r2];
    if DeliveryId(k1, s1, r1, v1) == DeliveryId(k2, s2, r2, v2) {
      var n := |"showcase_"|;
      assert DeliveryId(k1, s1, r1, v1)[n..] == Digest(Join(':', a));
      assert DeliveryId(k2, s2, r2, v2)[n..] == Digest(Join(':', b));
      DigestInjective(Join(':', a), Join(':', b));
      DecimalReads(v1);
      DecimalReads(v2);
      LastSeparatorSplits(':', Join(':', a[..3]), a[3], Join(':', b[..3]), b[3]);
      DecimalInjective(v1, v2);
    }
  }

  // For colon-free systems and records that is the correlation and the source version; the
  // correlation itself ("showcase:<run>") is free to contain colons.
  lemma ColonFreeDeliveries(
    k1: string, s1: string, r1: string, v1: nat, k2: string, s2: string, r2: string, v2: nat)
    requires ':' !in s1 && ':' !in r1 && ':' !in s2 && ':' !in r2
    ensures DeliveryId(k1, s1, r1, v1) == DeliveryId(k2, s2, r2, v2)
       <==> k1 == k2 && s1 == s2 && r1 == r2 && v1 == v2
  {
    DeliveryIdIdentifies(k1, s1, r1, v1, k2, s2, r2, v2);
    var a, b := [k1, s1, r1], [k2, s2, r2];
    if Join(':', a) == Join(':', b) {
      JoinInjective(':', a, b);
      assert a[0] == b[0] && a[1] == b[1] && a[2] == b[2];
    }
  }

  // In general a delivery shares its id with another one exactly when its correlation, system and
  // record can be cut at a colon and shifted.
  lemma DeliveryIdIsSharedExactly(k: string, s: string, r: string, v: nat)
    requires NonBlank(k) && NonBlank(s) && NonBlank(r)
    ensures (exists k2, s2, r2, v2: nat :: OtherDelivery(k, s, r, v, k2, s2, r2, v2)) <==> Shiftable(':', [k, s, r])
  {
    if k2, s2, r2, v2: nat :| OtherDelivery(k, s, r, v, k2, s2, r2, v2) {
      OtherDeliveryShifts(k, s, r, v, k2, s2, r2, v2);
    }
    if Shiftable(':', [k, s, r]) {
      JoinIsSharedExactly(':', [k, s, r]);
      var twin :| |twin| == 3 && AllNonBlank(twin) && twin != [k, s, r] && Join(':', twin) == Join(':', [k, s, r]);
      TwinDelivers(k, s, r, v, twin);
    }
  }

  // Another delivery of non-blank parts, with the same id.
  predicate OtherDelivery(k: string, s: string, r: string, v: nat, k2: string, s2: string, r2: string, v2: nat) {
    && NonBlank(k2) && NonBlank(s2) && NonBlank(r2) && !(k2 == k && s2 == s && r2 == r && v2 == v)
    && DeliveryId(k2, s2, r2, v2) == DeliveryId(k, s, r, v)
  }

  lemma OtherDeliveryShifts(k: string, s: string, r: string, v: nat, k2: string, s2: string, r2: string, v2: nat)
    requires NonBlank(k) && NonBlank(s) && NonBlank(r) && OtherDelivery(k, s, r, v, k2, s2, r2, v2)
    ensures Shiftable(':', [k, s, r])
  {
    DeliveryIdIdentifies(k2, s2, r2, v2, k, s, r, v);
    ThreePartsDiffer(k, s, r, k2, s2, r2);
    TwinMeansShiftable(':', [k, s, r], [k2, s2, r2]);
  }

  lemma TwinDelivers(k: string, s: string, r: string, v: nat, twin: seq<string>)
    requires |twin| == 3 && AllNonBlank(twin) && twin != [k, s, r] && Join(':', twin) == Join(':', [k, s, r])
    ensures OtherDelivery(k, s, r, v, twin[0], twin[1], twin[2], v)
  {
    assert twin == [twin[0], twin[1], twin[2]];
    DeliveryIdIdentifies(twin[0], twin[1], twin[2], v, k, s, r, v);
  }

  // The correlation the service itself gives a run.
  const RUN_PREFIX := "showcase:"

  function CorrelationOf(run: string): string {
    RUN_PREFIX + run
  }

  // Such a correlation can always be cut at its own colon, so among all deliveries its id is never
  // alone.
  lemma RunCorrelationShifts(run: string, s: string, r: string)
    ensures Shiftable(':', [CorrelationOf(run), s, r])
  {
    var parts := [CorrelationOf(run), s, r];
    var j := |RUN_PREFIX| - 1;
    assert parts[0][j] == ':' && parts[0][..j] == "showcase" && !IsSpace("showcase"[0]);
    assert ShiftsAt(':', parts, 0, j);
  }

  // Among deliveries of runs it is, exactly while run, system and record cannot be shifted.
  lemma RunDeliveryIsSharedExactly(run: string, s: string, r: string, v: nat)
    requires NonBlank(run) && NonBlank(s) && NonBlank(r)
    ensures (exists run2, s2, r2, v2: nat :: OtherRunDelivery(run, s, r, v, run2, s2, r2, v2))
       <==> Shiftable(':', [run, s, r])
  {
    if run2, s2, r2, v2: nat :| OtherRunDelivery(run, s, r, v, run2, s2, r2, v2) {
      RunDeliveryIdentifies(run2, s2, r2, v2, run, s, r, v);
      ThreePartsDiffer(run, s, r, run2, s2, r2);
      TwinMeansShiftable(':', [run, s, r], [run2, s2, r2]);
    }
    if Shiftable(':', [run, s, r]) {
      JoinIsSharedExactly(':', [run, s, r]);
      var twin :| |twin| == 3 && AllNonBlank(twin) && twin != [run, s, r] && Join(':', twin) == Join(':', [run, s, r]);
      TwinRun(run, s, r, v, twin);
    }
  }

  lemma ThreePartsDiffer(a: string, b: string, c: string, x: string, y: string, z: string)
    ensures [a, b, c] == [x, y, z] <==> a == x && b == y && c == z
    ensures AllNonBlank([x, y, z]) <==> NonBlank(x) && NonBlank(y) && NonBlank(z)
  {
    var p, q := [a, b, c], [x, y, z];
    assert p[0] == a && p[1] == b && p[2] == c && q[0] == x && q[1] == y && q[2] == z;
  }

  lemma TwinRun(run: string, s: string, r: string, v: nat, twin: seq<string>)
    requires |twin| == 3 && AllNonBlank(twin) && twin != [run, s, r] && Join(':', twin) == Join(':', [run, s, r])
    ensures OtherRunDelivery(run, s, r, v, twin[0], twin[1], twin[2], v)
  {
    assert twin == [twin[0], twin[1], twin[2]];
    RunDeliveryIdentifies(twin[0], twin[1], twin[2], v, run, s, r, v);
  }

  predicate OtherRunDelivery(
    run: string, s: string, r: string, v: nat, run2: string, s2: string, r2: string, v2: nat)
  {
    && NonBlank(run2) && NonBlank(s2) && NonBlank(r2) && !(run2 == run && s2 == s && r2 == r && v2 == v)
    && DeliveryId(CorrelationOf(run2), s2, r2, v2) == DeliveryId(CorrelationOf(run), s, r, v)
  }

  lemma JoinPrefixed(prefix: string, a: string, b: string, c: string)
    ensures Join(':', [prefix + a, b, c]) == prefix + Join(':', [a, b, c])
  {
    JoinThree(prefix + a, b, c);
    JoinThree(a, b, c);
  }

  lemma JoinThree(a: string, b: string, c: string)
    ensures Join(':', [a, b, c]) == a + ":" + b + ":" + c
  {
    assert [a, b, c][..2] == [a, b] && [a, b][..1] == [a];
    assert Join(':', [a]) == a && Join(':', [a, b]) == a + [':'] + b;
    assert Join(':', [a, b, c]) == Join(':', [a, b]) + [':'] + c;
  }

  lemma RunDeliveryIdentifies(
    run1: string, s1: string, r1: string, v1: nat, run2: string, s2: string, r2: string, v2: nat)
    ensures DeliveryId(CorrelationOf(run1), s1, r1, v1) == DeliveryId(CorrelationOf(run2), s2, r2, v2)
       <==> v1 == v2 && Join(':', [run1, s1, r1]) == Join(':', [run2, s2, r2])
  {
    DeliveryIdIdentifies(CorrelationOf(run1), s1, r1, v1, CorrelationOf(run2), s2, r2, v2);
    JoinPrefixed(RUN_PREFIX, run1, s1, r1);
    JoinPrefixed(RUN_PREFIX, run2, s2, r2);
    var x, y := Join(':', [run1, s1, r1]), Join(':', [run2, s2, r2]);
    if RUN_PREFIX + x == RUN_PREFIX + y {
      assert x == (RUN_PREFIX + x)[|RUN_PREFIX|..] && y == (RUN_PREFIX + y)[|RUN_PREFIX|..];
    }
  }

  lemma JoinFirst(a: string, b: string, c: string)
    ensures Join(':', [a, b, c]) == a + [':'] + Join(':', [b, c])
  {
    JoinThree(a, b, c);
    assert [b, c][..1] == [b];
    assert a + ":" + b + ":" + c == a + [':'] + (b + [':'] + c);
  }

  // A run id without a colon is read back from the joined text.
  lemma RunIsReadBack(run1: string, s1: string, r1: string, run2: string, s2: string, r2: string)
    requires ':' !in run1 && ':' !in run2 && Join(':', [run1, s1, r1]) == Join(':', [run2, s2, r2])
    ensures run1 == run2 && Join(':', [s1, r1]) == Join(':', [s2, r2])
  {
    var x, y := Join(':', [s1, r1]), Join(':', [s2, r2]);
    JoinFirst(run1, s1, r1);
    JoinFirst(run2, s2, r2);
    var text := run1 + [':'] + x;
    assert text == Join(':', [run1, s1, r1]) && text == run2 + [':'] + y;
    IndexOfFirst(run1, ':', x);
    IndexOfFirst(run2, ':', y);
    assert run1 == text[..|run1|] && run2 == text[..|run2|];
    assert x == text[|run1| + 1..] && y == text[|run2| + 1..];
  }

  // The HTTP routes let no colon into a run id. Among such runs the condition is on system and
  // record alone.
  lemma RouteDeliveryIsSharedExactly(run: string, s: string, r: string, v: nat)
    requires NonBlank(run) && ':' !in run && NonBlank(s) && NonBlank(r)
    ensures (exists run2, s2, r2, v2: nat :: ':' !in run2 && OtherRunDelivery(run, s, r, v, run2, s2, r2, v2))
       <==> Shiftable(':', [s, r])
  {
    if run2, s2, r2, v2: nat :| ':' !in run2 && OtherRunDelivery(run, s, r, v, run2, s2, r2, v2) {
      RunDeliveryIdentifies(run2, s2, r2, v2, run, s, r, v);
      RunIsReadBack(run2, s2, r2, run, s, r);
      assert [s, r][0] == s && [s, r][1] == r && [s2, r2][0] == s2 && [s2, r2][1] == r2;
      TwinMeansShiftable(':', [s, r], [s2, r2]);
    }
    if Shiftable(':', [s, r]) {
      JoinIsSharedExactly(':', [s, r]);
      var twin :| |twin| == 2 && AllNonBlank(twin) && twin != [s, r] && Join(':', twin) == Join(':', [s, r]);
      TwinOfRun(run, s, r, v, twin);
    }
  }

  lemma TwinOfRun(run: string, s: string, r: string, v: nat, twin: seq<string>)
    requires NonBlank(run) && |twin| == 2 && AllNonBlank(twin) && twin != [s, r]
    requires Join(':', twin) == Join(':', [s, r])
    ensures OtherRunDelivery(run, s, r, v, run, twin[0], twin[1], v)
  {
    assert twin == [twin[0], twin[1]];
    JoinFirst(run, s, r);
    JoinFirst(run, twin[0], twin[1]);
    RunDeliveryIdentifies(run, twin[0], twin[1], v, run, s, r, v);
  }
}

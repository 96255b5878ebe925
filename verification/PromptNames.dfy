/**
 The file names of the durable prompt queue: a sequence number padded to twenty digits, and the id of
 the prompt. Read in the order of their names, the files come in the order of their numbers.
 */
module PromptNames {
  import opened Wrappers
  import opened Names

  const WIDTH: nat := 20

  function Power10(w: nat): (p: nat)
    ensures p > 0
  {
    if w == 0 then 1 else 10 * Power10(w - 1)
  }

  function Digit(d: nat): (c: char)
    requires d < 10
  {
    ('0' as int + d) as char
  }

  predicate IsDigit(c: char) {
    '0' <= c <= '9'
  }

  /** The number in decimal, padded with zeros to at least `w` digits. */
  function Pad(n: nat, w: nat): (s: string)
    ensures |s| >= w
    decreases n, w
  {
    if w == 0 && n == 0 then "" else Pad(n / 10, if w == 0 then 0 else w - 1) + [Digit(n % 10)]
  }

  /** Only numbers below the power of ten fit the width. */
  lemma {:induction false} PadFits(n: nat, w: nat)
    ensures |Pad(n, w)| == w <==> n < Power10(w)
    decreases w
  {
    if w > 0 { PadFits(n / 10, w - 1); }
  }

  function Number(s: string): (n: nat)
    requires forall c | c in s :: IsDigit(c)
  {
    if s == "" then 0
    else
      assert IsDigit(s[|s| - 1]) by { assert s[|s| - 1] in s; }
      var units: nat := s[|s| - 1] as int - '0' as int;
      10 * Number(s[..|s| - 1]) + units
  }

  lemma {:induction false} PadIsDigits(n: nat, w: nat)
    ensures forall c | c in Pad(n, w) :: IsDigit(c)
    decreases n, w
  {
    if w > 0 || n > 0 { PadIsDigits(n / 10, if w == 0 then 0 else w - 1); }
  }

  lemma {:induction false} PadReadsBack(n: nat, w: nat)
    ensures (forall c | c in Pad(n, w) :: IsDigit(c)) && Number(Pad(n, w)) == n
    decreases n, w
  {
    PadIsDigits(n, w);
    if w > 0 || n > 0 {
      var front := Pad(n / 10, if w == 0 then 0 else w - 1);
      PadReadsBack(n / 10, if w == 0 then 0 else w - 1);
      var s := Pad(n, w);
      assert s[..|s| - 1] == front && s[|s| - 1] == Digit(n % 10);
    }
  }

  lemma {:induction false} LessAhead(p: string, a: string, b: string)
    requires Less(a, b)
    ensures Less(p + a, p + b)
    decreases |p|
  {
    if p == "" {
      assert p + a == a && p + b == b;
    } else {
      LessAhead(p[1..], a, b);
      assert (p + a)[1..] == p[1..] + a && (p + b)[1..] == p[1..] + b;
    }
  }

  /** Padded numbers of one width sort as numbers, whatever follows them. */
  lemma {:induction false} PaddedOrder(m: nat, n: nat, w: nat, x: string, y: string)
    requires m < n < Power10(w)
    ensures Less(Pad(m, w) + x, Pad(n, w) + y)
    decreases w
  {
    var a, b := [Digit(m % 10)], [Digit(n % 10)];
    if m / 10 < n / 10 {
      PaddedOrder(m / 10, n / 10, w - 1, a + x, b + y);
      assert Pad(m, w) + x == Pad(m / 10, w - 1) + (a + x);
      assert Pad(n, w) + y == Pad(n / 10, w - 1) + (b + y);
    } else {
      assert m / 10 == n / 10 && m % 10 < n % 10;
      assert Less(a + x, b + y);
      LessAhead(Pad(m / 10, w - 1), a + x, b + y);
      assert Pad(m, w) + x == Pad(m / 10, w - 1) + (a + x);
      assert Pad(n, w) + y == Pad(n / 10, w - 1) + (b + y);
    }
  }

  // ----- File names

  predicate IsHex(c: char) {
    '0' <= c <= '9' || 'a' <= c <= 'f'
  }

  predicate ValidId(id: string) {
    |id| == 36 && id[..4] == "prm_" && forall c | c in id[4..] :: IsHex(c)
  }

  function FileName(sequence: nat, id: string): (name: string) {
    Pad(sequence, WIDTH) + ("-" + id + ".json")
  }

  datatype Prompt = Prompt(sequence: nat, id: string)

  /** What the name pattern makes of a name. */
  function Parse(name: string): (r: Option<Prompt>) {
    if |name| != WIDTH + 42 || name[WIDTH] != '-' || name[WIDTH + 37..] != ".json" then None
    else
      var number, id := name[..WIDTH], name[WIDTH + 1..WIDTH + 37];
      if (forall c | c in number :: IsDigit(c)) && ValidId(id) then Some(Prompt(Number(number), id)) else None
  }

  /** A name is matched if and only if its number fits the width, and then gives number and id back. */
  lemma NameReadsBack(sequence: nat, id: string)
    requires ValidId(id)
    ensures Parse(FileName(sequence, id)) == if sequence < Power10(WIDTH) then Some(Prompt(sequence, id)) else None
  {
    var name, number := FileName(sequence, id), Pad(sequence, WIDTH);
    PadFits(sequence, WIDTH);
    PadReadsBack(sequence, WIDTH);
    assert |name| == |number| + 42;
    if |number| == WIDTH {
      assert name[..WIDTH] == number;
      assert name[WIDTH] == '-' && name[WIDTH + 1..WIDTH + 37] == id && name[WIDTH + 37..] == ".json";
    }
  }

  /** The id pattern: `prm_` and 32 small hexadecimal digits. */
  lemma IdIff(id: string)
    ensures ValidId(id) <==>
            exists hex :: |hex| == 32 && id == "prm_" + hex && forall c | c in hex :: c in "0123456789abcdef"
  {
    forall c ensures IsHex(c) <==> c in "0123456789abcdef" {
      if IsHex(c) { HexDigit(c); }
    }
    if ValidId(id) {
      assert id == "prm_" + id[4..];
    }
    if hex :| |hex| == 32 && id == "prm_" + hex && forall c | c in hex :: c in "0123456789abcdef" {
      assert id[4..] == hex && id[..4] == "prm_";
    }
  }

  lemma HexDigit(c: char)
    requires IsHex(c)
    ensures c in "0123456789abcdef"
  {
    var digits := "0123456789abcdef";
    var i := if c <= '9' then c as int - '0' as int else c as int - 'a' as int + 10;
    assert digits[i] == c;
  }

  lemma TenTimes(m: nat, units: nat)
    requires units < 10
    ensures (10 * m + units) / 10 == m && (10 * m + units) % 10 == units
  {
  }

  lemma PadOfMore(m: nat, w: nat, units: nat, front: string)
    requires units < 10 && Pad(m, w) == front
    ensures Pad(10 * m + units, w + 1) == front + [Digit(units)]
  {
    TenTimes(m, units);
  }

  function Units(c: char): (u: nat)
    requires IsDigit(c)
    ensures u < 10 && Digit(u) == c
  {
    c as int - '0' as int
  }

  lemma NumberOfMore(front: string, c: char)
    requires IsDigit(c) && forall x | x in front :: IsDigit(x)
    ensures forall x | x in front + [c] :: IsDigit(x)
    ensures Number(front + [c]) == 10 * Number(front) + Units(c)
  {
    var s := front + [c];
    assert s[..|s| - 1] == front && s[|s| - 1] == c;
  }

  /** The digits are the padded form of the number they are read as. */
  ghost predicate ReadsAsWritten(s: string) {
    (forall c | c in s :: IsDigit(c)) && Number(s) < Power10(|s|) && Pad(Number(s), |s|) == s
  }

  lemma OneMoreDigit(front: string, c: char)
    requires ReadsAsWritten(front) && IsDigit(c)
    ensures ReadsAsWritten(front + [c])
  {
    var s := front + [c];
    NumberOfMore(front, c);
    PadOfMore(Number(front), |front|, Units(c), front);
    assert |s| == |front| + 1 && Power10(|s|) == 10 * Power10(|front|);
  }

  lemma {:induction false} DigitsAreNumber(s: string)
    requires forall c | c in s :: IsDigit(c)
    ensures ReadsAsWritten(s)
  {
    if s != "" {
      var front, last := s[..|s| - 1], s[|s| - 1];
      assert front + [last] == s;
      assert forall c | c in front :: c in s;
      assert last in s;
      DigitsAreNumber(front);
      OneMoreDigit(front, last);
    }
  }

  /** The pattern matches exactly the names written for a well-formed id and a number that fits. */
  lemma MatchesIff(name: string, p: Prompt)
    ensures Parse(name) == Some(p) <==>
            ValidId(p.id) && p.sequence < Power10(20) && name == FileName(p.sequence, p.id)
  {
    if ValidId(p.id) && p.sequence < Power10(20) && name == FileName(p.sequence, p.id) {
      NameReadsBack(p.sequence, p.id);
    }
    if Parse(name) == Some(p) {
      var number := name[..WIDTH];
      DigitsAreNumber(number);
      assert name == number + ("-" + p.id + ".json");
    }
  }

  /** Names sort as their numbers do. */
  lemma NamesSortAsNumbers(m: nat, n: nat, idM: string, idN: string)
    requires m < n < Power10(WIDTH)
    ensures Less(FileName(m, idM), FileName(n, idN))
  {
    PaddedOrder(m, n, WIDTH, "-" + idM + ".json", "-" + idN + ".json");
  }
}

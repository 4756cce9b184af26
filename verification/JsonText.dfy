/** The byte-level check that JSON text holds only complete, NUL-free, well-paired escapes. */
module JsonText {
  import opened Basics

  type Byte = x: int | 0 <= x < 256

  // ----- UTF-8 -----

  predicate Between(b: Byte, low: int, high: int) {
    low <= b <= high
  }

  // The length of the UTF-8 sequence at the head of s; 0 when there is none.
  function Rune(s: seq<Byte>): (n: nat)
    ensures n <= |s| && (|s| > 0 && n == 0 ==> s[0] >= 0x80)
  {
    if |s| >= 1 && s[0] < 0x80 then 1
    else if |s| >= 2 && Between(s[0], 0xC2, 0xDF) && Between(s[1], 0x80, 0xBF) then 2
    else if |s| >= 3 && Between(s[2], 0x80, 0xBF) &&
            (  (s[0] == 0xE0 && Between(s[1], 0xA0, 0xBF))
            || (Between(s[0], 0xE1, 0xEC) && Between(s[1], 0x80, 0xBF))
            || (s[0] == 0xED && Between(s[1], 0x80, 0x9F))
            || (Between(s[0], 0xEE, 0xEF) && Between(s[1], 0x80, 0xBF))) then 3
    else if |s| >= 4 && Between(s[2], 0x80, 0xBF) && Between(s[3], 0x80, 0xBF) &&
            (  (s[0] == 0xF0 && Between(s[1], 0x90, 0xBF))
            || (Between(s[0], 0xF1, 0xF3) && Between(s[1], 0x80, 0xBF))
            || (s[0] == 0xF4 && Between(s[1], 0x80, 0x8F))) then 4
    else 0
  }

  predicate ValidUtf8(s: seq<Byte>) {
    |s| == 0 || (Rune(s) > 0 && ValidUtf8(s[Rune(s)..]))
  }

  // Unicode scalar values: the code points without the surrogates.
  predicate IsScalar(c: int) {
    0 <= c < 0xD800 || 0xE000 <= c <= 0x10FFFF
  }

  type Scalar = c: int | IsScalar(c)

  // Six bits of c, `shift` being the weight of the lowest, as a following byte.
  function Following(c: int, shift: int): Byte
    requires c >= 0 && shift > 0
  {
    0x80 + (c / shift) % 64
  }

  // The UTF-8 bytes of one character.
  function Utf8(c: Scalar): (bytes: seq<Byte>)
    ensures 1 <= |bytes| <= 4
  {
    var n: int := c;
    assert IsScalar(n);
    if n < 0x80 then [n]
    else if n < 0x800 then [0xC0 + n / 0x40, Following(n, 1)]
    else if n < 0x10000 then [0xE0 + n / 0x1000, Following(n, 0x40), Following(n, 1)]
    else [0xF0 + n / 0x40000, Following(n, 0x1000), Following(n, 0x40), Following(n, 1)]
  }

  function Encoded(cs: seq<Scalar>): seq<Byte> {
    if |cs| == 0 then [] else Utf8(cs[0]) + Encoded(cs[1..])
  }

  // The character whose bytes stand at the head of s.
  function Character(s: seq<Byte>): int
    requires Rune(s) > 0
  {
    var n, a: int := Rune(s), s[0];
    if n == 1 then a
    else
      var b: int := s[1];
      if n == 2 then (a - 0xC0) * 0x40 + (b - 0x80)
      else
        var c: int := s[2];
        if n == 3 then ((a - 0xE0) * 0x40 + (b - 0x80)) * 0x40 + (c - 0x80)
        else
          var d: int := s[3];
          (((a - 0xF0) * 0x40 + (b - 0x80)) * 0x40 + (c - 0x80)) * 0x40 + (d - 0x80)
  }

  // A character is recognised from its bytes, whatever follows them.
  lemma {:induction false} RuneOfCharacter(c: Scalar, rest: seq<Byte>)
    ensures Rune(Utf8(c) + rest) == |Utf8(c)|
  {
    assert IsScalar(c);
  }

  lemma {:induction false} Base64(m: nat, d: nat)
    requires d < 64
    ensures (m * 64 + d) / 64 == m && (m * 64 + d) % 64 == d
  {
  }

  lemma {:induction false} ThreeBytes(a: nat, b: nat, c: nat, n: nat)
    requires b < 64 && c < 64 && n == (a * 64 + b) * 64 + c
    ensures n / 0x1000 == a && Following(n, 0x40) == 0x80 + b && Following(n, 1) == 0x80 + c
  {
    Base64(a * 64 + b, c);
    Base64(a, b);
  }

  lemma {:induction false} FourBytes(a: nat, b: nat, c: nat, d: nat, n: nat)
    requires b < 64 && c < 64 && d < 64 && n == ((a * 64 + b) * 64 + c) * 64 + d
    ensures n / 0x40000 == a && Following(n, 0x1000) == 0x80 + b
    ensures Following(n, 0x40) == 0x80 + c && Following(n, 1) == 0x80 + d
  {
    ThreeBytes(a * 64 + b, c, d, n);
    Base64(a, b);
  }

  // What is recognised is the bytes of a character.
  lemma {:induction false} RuneIsCharacter(s: seq<Byte>)
    requires Rune(s) > 0
    ensures IsScalar(Character(s)) && s[..Rune(s)] == Utf8(Character(s))
  {
    var c := Character(s);
    if Rune(s) == 3 {
      ThreeBytes(s[0] as int - 0xE0, s[1] as int - 0x80, s[2] as int - 0x80, c);
    }
    if Rune(s) == 4 {
      FourBytes(s[0] as int - 0xF0, s[1] as int - 0x80, s[2] as int - 0x80, s[3] as int - 0x80, c);
    }
  }

  lemma {:induction false} ValidIsEncoded(s: seq<Byte>) returns (cs: seq<Scalar>)
    requires ValidUtf8(s)
    ensures s == Encoded(cs)
  {
    if |s| == 0 {
      return [];
    }
    RuneIsCharacter(s);
    var rest := ValidIsEncoded(s[Rune(s)..]);
    cs := [Character(s)] + rest;
    assert cs[1..] == rest;
    assert s == s[..Rune(s)] + s[Rune(s)..];
  }

  lemma {:induction false} EncodedIsValid(cs: seq<Scalar>)
    ensures ValidUtf8(Encoded(cs))
  {
    if |cs| > 0 {
      EncodedIsValid(cs[1..]);
      RuneOfCharacter(cs[0], Encoded(cs[1..]));
      assert Encoded(cs)[|Utf8(cs[0])|..] == Encoded(cs[1..]);
    }
  }

  // The valid byte strings are exactly the encodings of character strings.
  lemma {:induction false} ValidUtf8Exactly(s: seq<Byte>)
    ensures ValidUtf8(s) <==> exists cs :: s == Encoded(cs)
  {
    if ValidUtf8(s) {
      var cs := ValidIsEncoded(s);
    }
    if cs :| s == Encoded(cs) {
      EncodedIsValid(cs);
    }
  }

  // ----- what the text means -----

  // Reading left to right: a plain byte, a two-byte escape, or a \u escape
  // with its UTF-16 code unit.
  datatype Item = Plain(b: Byte) | Escape(b: Byte) | Unit(unit: nat)

  const BACKSLASH: Byte := 0x5C
  const LETTER_U: Byte := 0x75

  function HexDigit(b: Byte): (d: Option<nat>)
    ensures d.Some? ==> d.value < 16
  {
    if Between(b, 0x30, 0x39) then Some(b - 0x30)
    else if Between(b, 0x41, 0x46) then Some(b - 0x41 + 10)
    else if Between(b, 0x61, 0x66) then Some(b - 0x61 + 10)
    else None
  }

  // Four hexadecimal digits as a 16-bit number.
  function Hex4(s: seq<Byte>): Option<nat>
    requires |s| == 4
  {
    var a, b, c, d := HexDigit(s[0]), HexDigit(s[1]), HexDigit(s[2]), HexDigit(s[3]);
    if a.Some? && b.Some? && c.Some? && d.Some?
    then Some(((a.value * 16 + b.value) * 16 + c.value) * 16 + d.value) else None
  }

  const LOWER: string := "0123456789abcdef"
  const UPPER: string := "0123456789ABCDEF"

  // b is the character for the hexadecimal digit d, in either case.
  ghost predicate HexFor(b: Byte, d: int) {
    0 <= d < 16 && (b == LOWER[d] as int || b == UPPER[d] as int)
  }

  lemma {:induction false} HexDigitExactly(b: Byte, d: nat)
    ensures HexDigit(b) == Some(d) <==> HexFor(b, d)
  {
  }

  // The digits s are the numeral of n, most significant digit first.
  ghost predicate HexOf(s: seq<Byte>, n: nat) {
    if |s| == 0 then n == 0 else HexDigit(s[|s| - 1]) == Some(n % 16) && HexOf(s[..|s| - 1], n / 16)
  }

  lemma {:induction false} HexOfAppend(s: seq<Byte>, b: Byte, m: nat)
    requires HexOf(s, m) && HexDigit(b).Some?
    ensures HexOf(s + [b], m * 16 + HexDigit(b).value)
  {
    assert (s + [b])[..|s|] == s;
  }

  lemma {:induction false} HexOfDigits(s: seq<Byte>, n: nat)
    requires HexOf(s, n)
    ensures forall i :: 0 <= i < |s| ==> HexDigit(s[i]).Some?
  {
    if |s| > 0 {
      HexOfDigits(s[..|s| - 1], n / 16);
    }
  }

  lemma {:induction false} HexOfUnique(s: seq<Byte>, n: nat, m: nat)
    requires HexOf(s, n) && HexOf(s, m)
    ensures n == m
  {
    if |s| > 0 {
      HexOfUnique(s[..|s| - 1], n / 16, m / 16);
    }
  }

  // Hex4 reads exactly the four-digit numerals.
  lemma {:induction false} Hex4Exactly(s: seq<Byte>, n: nat)
    requires |s| == 4
    ensures Hex4(s) == Some(n) <==> HexOf(s, n)
  {
    if Hex4(s).Some? {
      var a, b, c := HexDigit(s[0]).value, HexDigit(s[1]).value, HexDigit(s[2]).value;
      assert s == s[..3] + [s[3]] && s[..3] == s[..2] + [s[2]] && s[..2] == s[..1] + [s[1]] && s[..1] == s[..0] + [s[0]];
      HexOfAppend(s[..0], s[0], 0);
      HexOfAppend(s[..1], s[1], a);
      HexOfAppend(s[..2], s[2], a * 16 + b);
      HexOfAppend(s[..3], s[3], (a * 16 + b) * 16 + c);
    }
    if HexOf(s, n) {
      HexOfDigits(s, n);
      HexOfUnique(s, n, Hex4(s).value);
    }
  }

  // The first item of s and its length; None when an escape is incomplete.
  function Head(s: seq<Byte>): (r: Option<(Item, nat)>)
    requires |s| > 0
    ensures r.Some? ==> 1 <= r.value.1 <= |s|
  {
    if s[0] != BACKSLASH then Some((Plain(s[0]), 1))
    else if |s| < 2 then None
    else if s[1] != LETTER_U then Some((Escape(s[1]), 2))
    else if |s| < 6 || Hex4(s[2..6]).None? then None
    else Some((Unit(Hex4(s[2..6]).value), 6))
  }

  function Items(s: seq<Byte>): Option<seq<Item>>
    decreases |s|
  {
    if |s| == 0 then Some([])
    else
      var h := Head(s);
      if h.None? then None
      else
        var rest := Items(s[h.value.1..]);
        if rest.None? then None else Some([h.value.0] + rest.value)
  }

  // How an item is written.
  ghost predicate Spells(t: seq<Byte>, i: Item) {
    match i
    case Plain(b) => b != BACKSLASH && t == [b]
    case Escape(b) => b != LETTER_U && t == [BACKSLASH, b]
    case Unit(n) => |t| == 6 && t[0] == BACKSLASH && t[1] == LETTER_U && HexOf(t[2..], n)
  }

  // s is the items written one after another.
  ghost predicate Spelled(s: seq<Byte>, items: seq<Item>)
    decreases |items|
  {
    if |items| == 0 then |s| == 0
    else exists n: nat :: n <= |s| && Spells(s[..n], items[0]) && Spelled(s[n..], items[1..])
  }

  lemma {:induction false} HeadExactly(s: seq<Byte>, i: Item, n: nat)
    requires |s| > 0
    ensures Head(s) == Some((i, n)) <==> n <= |s| && Spells(s[..n], i)
  {
    if |s| >= 6 && i.Unit? {
      assert s[..6][2..] == s[2..6];
      Hex4Exactly(s[2..6], i.unit);
    }
  }

  // The reading of a text is the only way it can have been written.
  lemma {:induction false} ItemsExactly(s: seq<Byte>, items: seq<Item>)
    ensures Items(s) == Some(items) <==> Spelled(s, items)
    decreases |s|
  {
    if |s| == 0 {
      return;
    }
    if Head(s).Some? && |items| > 0 {
      var (i, n) := Head(s).value;
      HeadExactly(s, i, n);
      ItemsExactly(s[n..], items[1..]);
      if Items(s) == Some(items) {
        assert items == [i] + Items(s[n..]).value;
      }
    }
    if Spelled(s, items) {
      var n: nat :| n <= |s| && Spells(s[..n], items[0]) && Spelled(s[n..], items[1..]);
      HeadExactly(s, items[0], n);
      assert items == [items[0]] + items[1..];
    }
  }

  predicate High(i: Item) {
    i.Unit? && 0xD800 <= i.unit <= 0xDBFF
  }

  predicate Low(i: Item) {
    i.Unit? && 0xDC00 <= i.unit <= 0xDFFF
  }

  // The item at j is not NUL; a high surrogate is followed by a low one, and a
  // low surrogate follows a high one.
  ghost predicate PairedAt(items: seq<Item>, j: nat)
    requires j < |items|
  {
    && items[j] != Unit(0)
    && (High(items[j]) ==> j + 1 < |items| && Low(items[j + 1]))
    && (Low(items[j]) ==> 0 < j && High(items[j - 1]))
  }

  ghost predicate WellPaired(items: seq<Item>) {
    forall j :: 0 <= j < |items| ==> PairedAt(items, j)
  }

  ghost predicate Acceptable(s: seq<Byte>) {
    Items(s).Some? && WellPaired(Items(s).value)
  }

  // An acceptable text is one that can be written from well-paired items.
  lemma {:induction false} AcceptableExactly(s: seq<Byte>)
    ensures Acceptable(s) <==> exists items :: Spelled(s, items) && WellPaired(items)
  {
    if Items(s).Some? {
      ItemsExactly(s, Items(s).value);
    }
    if items :| Spelled(s, items) && WellPaired(items) {
      ItemsExactly(s, items);
    }
  }

  // ----- one step of reading -----

  lemma {:induction false} PairsAfterSingle(i: Item, rest: seq<Item>)
    requires !High(i)
    ensures WellPaired([i] + rest) <==> i != Unit(0) && !Low(i) && WellPaired(rest)
  {
    var all := [i] + rest;
    assert all[0] == i;
    forall j | 0 <= j < |rest| ensures rest[j] == all[j + 1] {}
    if WellPaired(all) {
      forall j | 0 <= j < |rest| ensures PairedAt(rest, j) {
        assert PairedAt(all, j + 1);
      }
      assert PairedAt(all, 0);
    }
    if i != Unit(0) && !Low(i) && WellPaired(rest) {
      forall j | 0 <= j < |all| ensures PairedAt(all, j) {
        assert j > 0 ==> PairedAt(rest, j - 1);
      }
    }
  }

  lemma {:induction false} PairsAfterHigh(high: Item, rest: seq<Item>)
    requires High(high)
    ensures WellPaired([high] + rest) <==> |rest| > 0 && Low(rest[0]) && WellPaired(rest[1..])
  {
    var all := [high] + rest;
    assert all[0] == high;
    if |rest| > 0 {
      var tail := rest[1..];
      assert all[1] == rest[0];
      forall j | 0 <= j < |tail| ensures tail[j] == all[j + 2] {}
      if WellPaired(all) {
        assert PairedAt(all, 0);
        forall j | 0 <= j < |tail| ensures PairedAt(tail, j) {
          assert PairedAt(all, j + 2);
        }
      }
      if Low(rest[0]) && WellPaired(tail) {
        forall j | 0 <= j < |all| ensures PairedAt(all, j) {
          assert j > 1 ==> PairedAt(tail, j - 2);
        }
      }
    } else {
      assert !PairedAt(all, 0);
    }
  }

  // Reading one item that is not a high surrogate.
  lemma {:induction false} AcceptSingle(s: seq<Byte>)
    requires |s| > 0
    ensures Head(s).None? ==> !Acceptable(s)
    ensures Head(s).Some? && !High(Head(s).value.0) ==>
              var (item, n) := Head(s).value;
              Acceptable(s) <==> item != Unit(0) && !Low(item) && Acceptable(s[n..])
  {
    if Head(s).Some? && !High(Head(s).value.0) {
      var (item, n) := Head(s).value;
      if Items(s[n..]).Some? {
        PairsAfterSingle(item, Items(s[n..]).value);
      }
    }
  }

  // Reading a high surrogate: the next item must be a low one.
  lemma {:induction false} AcceptHigh(s: seq<Byte>)
    requires |s| > 0 && Head(s).Some? && High(Head(s).value.0)
    ensures |s| >= 6 && Head(s).value.1 == 6
    ensures |s| == 6 || Head(s[6..]).None? || !Low(Head(s[6..]).value.0) ==> !Acceptable(s)
    ensures |s| > 6 && Head(s[6..]).Some? && Low(Head(s[6..]).value.0) ==>
              |s| >= 12 && (Acceptable(s) <==> Acceptable(s[12..]))
  {
    var rest := s[6..];
    if Items(rest).Some? {
      PairsAfterHigh(Head(s).value.0, Items(rest).value);
    }
    if |rest| > 0 && Head(rest).Some? && Low(Head(rest).value.0) {
      assert Head(rest).value.1 == 6;
      assert rest[6..] == s[12..];
      if Items(s[12..]).Some? {
        assert Items(rest).value[1..] == Items(s[12..]).value;
      }
    }
  }

  lemma {:induction false} SliceOfTail(raw: seq<Byte>, at: nat, a: nat, b: nat)
    requires a <= b && at + b <= |raw|
    ensures raw[at..][a..b] == raw[at + a..at + b] && raw[at..][b..] == raw[at + b..]
  {
  }

  predicate IsUnitAt(raw: seq<Byte>, at: nat) {
    at + 1 < |raw| && raw[at] == BACKSLASH && raw[at + 1] == LETTER_U
  }

  // The same steps on the whole text and an index.
  lemma {:induction false} ScanPlain(raw: seq<Byte>, at: nat)
    requires at < |raw| && !IsUnitAt(raw, at)
    ensures raw[at] != BACKSLASH ==> (Acceptable(raw[at..]) <==> Acceptable(raw[at + 1..]))
    ensures raw[at] == BACKSLASH && at + 1 < |raw| ==> (Acceptable(raw[at..]) <==> Acceptable(raw[at + 2..]))
    ensures raw[at] == BACKSLASH && at + 1 == |raw| ==> !Acceptable(raw[at..])
  {
    AcceptSingle(raw[at..]);
    assert raw[at..][1..] == raw[at + 1..];
    assert at + 1 < |raw| ==> raw[at..][2..] == raw[at + 2..];
  }

  lemma {:induction false} ScanUnit(raw: seq<Byte>, at: nat)
    requires IsUnitAt(raw, at)
    ensures at + 5 >= |raw| || Hex4(raw[at + 2..at + 6]).None? ==> !Acceptable(raw[at..])
    ensures at + 5 < |raw| && Hex4(raw[at + 2..at + 6]).Some? ==>
              var unit := Unit(Hex4(raw[at + 2..at + 6]).value);
              && Head(raw[at..]) == Some((unit, 6))
              && (unit == Unit(0) || Low(unit) ==> !Acceptable(raw[at..]))
              && (unit != Unit(0) && !Low(unit) && !High(unit) ==> (Acceptable(raw[at..]) <==> Acceptable(raw[at + 6..])))
  {
    AcceptSingle(raw[at..]);
    if at + 5 < |raw| {
      SliceOfTail(raw, at, 2, 6);
    }
  }

  lemma {:induction false} ScanPair(raw: seq<Byte>, at: nat)
    requires IsUnitAt(raw, at) && at + 5 < |raw| && Hex4(raw[at + 2..at + 6]).Some?
    requires High(Unit(Hex4(raw[at + 2..at + 6]).value))
    ensures !IsUnitAt(raw, at + 6) || at + 11 >= |raw| ==> !Acceptable(raw[at..])
    ensures IsUnitAt(raw, at + 6) && at + 11 < |raw| ==>
              var low := Hex4(raw[at + 8..at + 12]);
              if low.Some? && Low(Unit(low.value)) then Acceptable(raw[at..]) <==> Acceptable(raw[at + 12..])
              else !Acceptable(raw[at..])
  {
    ScanUnit(raw, at);
    AcceptHigh(raw[at..]);
    SliceOfTail(raw, at, 6, 6);
    if IsUnitAt(raw, at + 6) {
      ScanUnit(raw, at + 6);
      if at + 11 < |raw| {
        SliceOfTail(raw, at, 12, 12);
      }
    }
  }

  // The scanner: an index that jumps over escapes. For every byte string it
  // accepts exactly valid UTF-8 in which every escape is complete, no \u
  // escape is zero and \u escapes form well-paired surrogates.
  method ValidUnicodeJson(raw: seq<Byte>) returns (ok: bool)
    ensures ok <==> ValidUtf8(raw) && Acceptable(raw)
  {
    if !ValidUtf8(raw) {
      return false;
    }
    var i := 0;
    assert raw[0..] == raw;
    while i < |raw|
      invariant 0 <= i <= |raw|
      invariant Acceptable(raw) <==> Acceptable(raw[i..])
    {
      ghost var at := i;
      if !IsUnitAt(raw, at) {
        ScanPlain(raw, at);
      } else {
        ScanUnit(raw, at);
      }
      if raw[i] != BACKSLASH {
        i := i + 1;
        continue;
      }
      i := i + 1;
      if i >= |raw| {
        return false;
      }
      if raw[i] != LETTER_U {
        i := i + 1;
        continue;
      }
      if i + 4 >= |raw| {
        return false;
      }
      var unit := Hex4(raw[i + 1..i + 5]);
      if unit.None? || unit.value == 0 {
        return false;
      }
      i := i + 4;
      if 0xDC00 <= unit.value <= 0xDFFF {
        return false;
      }
      if 0xD800 <= unit.value <= 0xDBFF {
        ScanPair(raw, at);
        if i + 6 >= |raw| || raw[i + 1] != BACKSLASH || raw[i + 2] != LETTER_U {
          return false;
        }
        var low := Hex4(raw[i + 3..i + 7]);
        if low.None? || low.value < 0xDC00 || low.value > 0xDFFF {
          return false;
        }
        i := i + 6;
      }
      i := i + 1;
    }
    assert raw[i..] == [];
    ok := true;
  }
}

/** Sort keys for call numbers: the first number is padded to four digits so that keys sort like numbers
    (app/controllers/bibliographic_controller.rb:219-227). */
module CallNumbers {
  import opened Wrappers
  import opened RubyValues

  predicate IsLetter(c: char) { 'A' <= c <= 'Z' || 'a' <= c <= 'z' }

  predicate IsDigit(c: char) { '0' <= c <= '9' }

  /** The two classes of the scan, by code point. */
  lemma LettersAndDigits(c: char)
    ensures IsLetter(c) <==> 65 <= c as int <= 90 || 97 <= c as int <= 122
    ensures IsDigit(c) <==> 48 <= c as int <= 57
  {
  }

  predicate SameKind(c: char, d: char) {
    (IsLetter(c) && IsLetter(d)) || (IsDigit(c) && IsDigit(d))
  }

  function RunLength(s: string, like: char): (k: nat)
    ensures k <= |s|
  {
    if s == "" || !SameKind(s[0], like) then 0 else 1 + RunLength(s[1..], like)
  }

  /** `scan(/[A-Za-z]+|\d+/)` */
  function Scan(s: string): seq<string>
    decreases |s|
  {
    if s == "" then []
    else if !IsLetter(s[0]) && !IsDigit(s[0]) then Scan(s[1..])
    else
      var k := RunLength(s, s[0]);
      if k == 0 then [] else [s[..k]] + Scan(s[k..])
  }

  /** `tr(',', '.')` */
  function CommasToDots(s: string): (r: string)
    ensures |r| == |s| && forall i :: 0 <= i < |s| ==> r[i] == if s[i] == ',' then '.' else s[i]
  {
    seq(|s|, i requires 0 <= i < |s| => if s[i] == ',' then '.' else s[i])
  }

  /** `rjust(4, '0')` */
  function PadFour(s: string): string
    decreases 4 - |s|
  {
    if |s| >= 4 then s else PadFour("0" + s)
  }

  /** The key, or None where the program raises and its caller falls back to the call number. */
  function Forced(callNumber: string): Option<string> {
    var dotParts := Split(CommasToDots(callNumber), '.');
    if |dotParts| <= 1 then Some(callNumber)
    else
      var parts := Scan(dotParts[0]);
      if |parts| < 2 then None
      else Some(Join([Join(parts[1 := PadFour(parts[1])], ".")] + dotParts[1..], "."))
  }

  /** `force_number_part_to_have_4_digits` */
  method ForceNumberPart(callNumber: string) returns (key: Option<string>)
    ensures key == Forced(callNumber)
    ensures forall letters, gap, n, rest :: Starts(callNumber, letters, gap, n, rest) && n < 10000 ==>
              key == Some(if Continues(rest) then letters + ("." + (FourDigits(n) + Tail(rest))) else callNumber)
  {
    forall letters, gap, n, rest | Starts(callNumber, letters, gap, n, rest) && n < 10000
      ensures Forced(callNumber) ==
              Some(if Continues(rest) then letters + ("." + (FourDigits(n) + Tail(rest))) else callNumber)
    {
      if Continues(rest) {
        KeyOfPadded(callNumber, letters, gap, n, rest);
      } else {
        KeyOfUnpadded(callNumber, letters, gap, n, rest);
      }
    }
    var dotParts := Split(CommasToDots(callNumber), '.');
    if |dotParts| <= 1 { return Some(callNumber); }
    var parts := Scan(dotParts[0]);
    if |parts| < 2 { return None; }
    parts := parts[1 := PadFour(parts[1])];
    dotParts := dotParts[0 := Join(parts, ".")];
    assert dotParts == [dotParts[0]] + dotParts[1..];
    key := Some(Join(dotParts, "."));
  }

  function SortKey(callNumber: string): string {
    if Forced(callNumber).Some? then Forced(callNumber).value else callNumber
  }

  /** String order, as Ruby's `<=>` has it. */
  predicate Less(a: string, b: string) {
    if b == "" then false
    else if a == "" then true
    else a[0] < b[0] || (a[0] == b[0] && Less(a[1..], b[1..]))
  }

  // ----- numbers

  function Digit(d: nat): char
    requires d < 10
  {
    ('0' as int + d) as char
  }

  /** A number without leading zeros. */
  function Number(n: nat): (s: string)
    ensures s != "" && forall i :: 0 <= i < |s| ==> IsDigit(s[i])
  {
    if n < 10 then [Digit(n)] else Number(n / 10) + [Digit(n % 10)]
  }

  function FourDigits(n: nat): string
    requires n < 10000
  {
    [Digit(n / 1000), Digit(n / 100 % 10), Digit(n / 10 % 10), Digit(n % 10)]
  }

  lemma Places(n: nat)
    ensures n / 10 / 10 == n / 100 && n / 100 / 10 == n / 1000
    ensures n == 1000 * (n / 1000) + 100 * (n / 100 % 10) + 10 * (n / 10 % 10) + n % 10
  {
  }

  lemma NumberOneMore(n: nat)
    requires n >= 10
    ensures Number(n) == Number(n / 10) + [Digit(n % 10)]
  {
  }

  lemma PadOneMore(s: string)
    requires |s| < 4
    ensures PadFour(s) == PadFour("0" + s)
  {
  }

  lemma PadTwo(s: string)
    requires |s| == 2
    ensures PadFour(s) == "00" + s
  {
    PadOneMore(s);
    PadOneMore("0" + s);
    assert "0" + ("0" + s) == "00" + s;
  }

  lemma PaddedNumber(n: nat)
    requires n < 10000
    ensures PadFour(Number(n)) == FourDigits(n)
  {
    Places(n);
    if n < 10 {
      PadOneMore(Number(n));
      PadTwo("0" + Number(n));
    } else if n < 100 {
      NumberOneMore(n);
      PadTwo(Number(n));
    } else if n < 1000 {
      NumberOneMore(n);
      NumberOneMore(n / 10);
      PadOneMore(Number(n));
    } else {
      NumberOneMore(n);
      NumberOneMore(n / 10);
      NumberOneMore(n / 100);
    }
  }

  lemma {:induction false} LessAfter(prefix: string, a: string, b: string)
    ensures Less(prefix + a, prefix + b) <==> Less(a, b)
  {
    if prefix == "" {
      assert prefix + a == a && prefix + b == b;
    } else {
      assert (prefix + a)[1..] == prefix[1..] + a && (prefix + b)[1..] == prefix[1..] + b;
      LessAfter(prefix[1..], a, b);
    }
  }

  lemma FirstSmallerDigit(n: nat, m: nat) returns (k: nat)
    requires n < m < 10000
    ensures k < 4 && FourDigits(n)[..k] == FourDigits(m)[..k] && FourDigits(n)[k] < FourDigits(m)[k]
  {
    Places(n);
    Places(m);
    k := if n / 1000 != m / 1000 then 0
         else if n / 100 % 10 != m / 100 % 10 then 1
         else if n / 10 % 10 != m / 10 % 10 then 2
         else 3;
  }

  lemma FourDigitsInOrder(n: nat, m: nat, a: string, b: string)
    requires n < m < 10000
    ensures Less(FourDigits(n) + a, FourDigits(m) + b)
  {
    var k := FirstSmallerDigit(n, m);
    var s, t := FourDigits(n), FourDigits(m);
    assert (s + a)[..k] == s[..k] && (t + b)[..k] == t[..k];
    FirstDifference(s + a, t + b, k);
  }

  lemma FirstDifference(a: string, b: string, k: nat)
    requires k < |a| && k < |b| && a[..k] == b[..k] && a[k] < b[k]
    ensures Less(a, b)
  {
    assert a == a[..k] + a[k..] && b == b[..k] + b[k..];
    LessAfter(a[..k], a[k..], b[k..]);
  }

  // ----- which call numbers are padded

  predicate AllLetters(s: string) {
    forall i :: 0 <= i < |s| ==> IsLetter(s[i])
  }

  /** Blanks and other characters that the scan skips and that no dot is made of. */
  predicate AllSkipped(s: string) {
    forall i :: 0 <= i < |s| ==> !IsLetter(s[i]) && !IsDigit(s[i]) && s[i] != '.' && s[i] != ','
  }

  /** A call number that starts with these letters and this number, perhaps apart, and has its first dot, or
      comma, right after them. */
  predicate Starts(callNumber: string, letters: string, gap: string, n: nat, rest: string) {
    && letters != "" && AllLetters(letters) && AllSkipped(gap)
    && (rest == "" || rest[0] == '.' || rest[0] == ',')
    && callNumber == (letters + gap) + Number(n) + rest
  }

  /** Something other than dots and commas follows. */
  predicate Continues(rest: string) {
    exists i :: 0 <= i < |rest| && rest[i] != '.' && rest[i] != ','
  }

  lemma {:induction false} RunOfOneKind(s: string, tail: string, like: char)
    requires forall i :: 0 <= i < |s| ==> SameKind(s[i], like)
    requires tail == "" || !SameKind(tail[0], like)
    ensures RunLength(s + tail, like) == |s|
  {
    if s == "" {
      assert s + tail == tail;
    } else {
      assert (s + tail)[1..] == s[1..] + tail;
      RunOfOneKind(s[1..], tail, like);
    }
  }

  lemma ScanRun(s: string, tail: string)
    requires s != "" && forall i :: 0 <= i < |s| ==> SameKind(s[i], s[0])
    requires tail == "" || !SameKind(tail[0], s[0])
    ensures Scan(s + tail) == [s] + Scan(tail)
  {
    RunOfOneKind(s, tail, s[0]);
    assert (s + tail)[0] == s[0] && (s + tail)[..|s|] == s && (s + tail)[|s|..] == tail;
  }

  lemma {:induction false} ScanSkips(gap: string, tail: string)
    requires AllSkipped(gap)
    ensures Scan(gap + tail) == Scan(tail)
  {
    if gap == "" {
      assert gap + tail == tail;
    } else {
      assert (gap + tail)[1..] == gap[1..] + tail;
      ScanSkips(gap[1..], tail);
    }
  }

  lemma ScanTwo(letters: string, gap: string, digits: string)
    requires letters != "" && AllLetters(letters) && AllSkipped(gap)
    requires digits != "" && forall i :: 0 <= i < |digits| ==> IsDigit(digits[i])
    ensures Scan((letters + gap) + digits) == [letters, digits]
  {
    assert IsLetter(letters[0]) && IsDigit(digits[0]);
    Reassociate(letters, gap, digits);
    assert (gap + digits)[0] == if gap == "" then digits[0] else gap[0];
    ScanRun(letters, gap + digits);
    ScanSkips(gap, digits);
    ScanRun(digits, "");
    assert digits + "" == digits;
    assert Scan("") == [];
  }

  predicate AllEmpty(parts: seq<string>) {
    forall i :: 0 <= i < |parts| ==> parts[i] == ""
  }

  lemma {:induction false} NothingLeft(parts: seq<string>)
    ensures DropTrailingEmpty(parts) == [] <==> AllEmpty(parts)
  {
    if parts != [] && parts[|parts| - 1] == "" {
      NothingLeft(parts[..|parts| - 1]);
      assert AllEmpty(parts) <==> AllEmpty(parts[..|parts| - 1]);
    }
  }

  lemma {:induction false} OnlySeparators(s: string, separator: char)
    ensures AllEmpty(Pieces(s, separator)) <==> forall i :: 0 <= i < |s| ==> s[i] == separator
  {
    if s != "" {
      var rest, pieces := Pieces(s[1..], separator), Pieces(s, separator);
      OnlySeparators(s[1..], separator);
      if s[0] == separator {
        assert AllEmpty(pieces) <==> AllEmpty(rest) by { assert pieces[1..] == rest; }
        assert (forall i :: 0 <= i < |s| ==> s[i] == separator) <==>
               (forall i :: 0 <= i < |s[1..]| ==> s[1..][i] == separator);
      } else {
        assert pieces[0] != "";
      }
    }
  }

  lemma {:induction false} DropBehind(first: string, parts: seq<string>)
    requires first != ""
    ensures DropTrailingEmpty([first] + parts) == [first] + DropTrailingEmpty(parts)
  {
    if parts == [] {
      assert [first] + parts == [first];
    } else {
      assert ([first] + parts)[..|parts|] == [first] + parts[..|parts| - 1];
      if parts[|parts| - 1] == "" { DropBehind(first, parts[..|parts| - 1]); }
    }
  }

  /** The dotted parts: the letters with the number, and whatever is between the dots behind them. */
  lemma DotParts(callNumber: string, letters: string, gap: string, n: nat, rest: string)
    requires Starts(callNumber, letters, gap, n, rest)
    ensures var first, after := (letters + gap) + Number(n), if rest == "" then "" else CommasToDots(rest)[1..];
            Split(CommasToDots(callNumber), '.') == [first] + DropTrailingEmpty(Pieces(after, '.'))
  {
    var first := (letters + gap) + Number(n);
    forall i | 0 <= i < |first| ensures first[i] != '.' && first[i] != ',' {
      if i < |letters| {
        assert first[i] == letters[i];
      } else if i < |letters + gap| {
        assert first[i] == gap[i - |letters|];
      } else {
        assert first[i] == Number(n)[i - |letters + gap|];
      }
    }
    if rest == "" {
      assert CommasToDots(callNumber) == first;
      PiecesOfPiece(first, '.');
      assert DropTrailingEmpty([""]) == DropTrailingEmpty([""][..0]) == [];
    } else {
      var after := CommasToDots(rest)[1..];
      assert CommasToDots(callNumber) == first + ['.'] + after;
      PiecesAfter(first, after, '.');
      DropBehind(first, Pieces(after, '.'));
    }
  }

  lemma ContinuesMeaning(rest: string)
    requires rest != "" && (rest[0] == '.' || rest[0] == ',')
    ensures Continues(rest) <==> DropTrailingEmpty(Pieces(CommasToDots(rest)[1..], '.')) != []
  {
    var after := CommasToDots(rest)[1..];
    OnlySeparators(after, '.');
    NothingLeft(Pieces(after, '.'));
    assert forall i :: 0 < i < |rest| ==> after[i - 1] == CommasToDots(rest)[i];
    if k :| 0 <= k < |rest| && rest[k] != '.' && rest[k] != ',' {
      assert after[k - 1] != '.';
    }
  }

  lemma PaddedPart(letters: string, gap: string, n: nat)
    requires letters != "" && AllLetters(letters) && AllSkipped(gap) && n < 10000
    ensures var parts := Scan((letters + gap) + Number(n));
            |parts| == 2 && Join(parts[1 := PadFour(parts[1])], ".") == letters + "." + FourDigits(n)
  {
    ScanTwo(letters, gap, Number(n));
    PaddedNumber(n);
    assert [letters, Number(n)][1 := FourDigits(n)] == [letters] + [FourDigits(n)];
    JoinOneMore([letters], FourDigits(n), ".");
  }

  lemma ForcedParts(callNumber: string, letters: string, gap: string, n: nat, behind: seq<string>)
    requires letters != "" && AllLetters(letters) && AllSkipped(gap) && n < 10000
    requires Split(CommasToDots(callNumber), '.') == [(letters + gap) + Number(n)] + behind && behind != []
    ensures Forced(callNumber) == Some(Join([letters + "." + FourDigits(n)] + behind, "."))
  {
    PaddedPart(letters, gap, n);
    assert ([(letters + gap) + Number(n)] + behind)[1..] == behind;
  }

  /** What comes behind the padded number: the rest with its commas as dots, without the dots at its end. */
  function Tail(rest: string): string {
    StripTrailing(CommasToDots(rest), '.')
  }

  lemma TailParts(rest: string)
    requires (rest == "" || rest[0] == '.' || rest[0] == ',') && Continues(rest)
    ensures Tail(rest) == "." + Join(Split(CommasToDots(rest)[1..], '.'), ".")
  {
    var after := CommasToDots(rest)[1..];
    JoinOfSplit(after, '.');
    ContinuesMeaning(rest);
    var parts := Split(after, '.');
    DropTrailingEmptyIsPrefix(Pieces(after, '.'));
    if Join(parts, ".") == "" { JoinEmpty(parts); }
    StripBehind('.', after, '.');
    assert CommasToDots(rest) == ['.'] + after;
  }

  lemma JoinEmpty(parts: seq<string>)
    requires parts != [] && Join(parts, ".") == ""
    ensures parts[|parts| - 1] == ""
  {
  }

  /** Unless only dots and commas follow, the key is the letters, the number padded to four digits, and the
      rest; what stands between letters and number is dropped. */
  lemma KeyOfPadded(callNumber: string, letters: string, gap: string, n: nat, rest: string)
    requires Starts(callNumber, letters, gap, n, rest) && n < 10000 && Continues(rest)
    ensures Forced(callNumber) == Some(SortKey(callNumber))
    ensures SortKey(callNumber) == letters + ("." + (FourDigits(n) + Tail(rest)))
  {
    DotParts(callNumber, letters, gap, n, rest);
    ContinuesMeaning(rest);
    TailParts(rest);
    var behind := Split(CommasToDots(rest)[1..], '.');
    ForcedParts(callNumber, letters, gap, n, behind);
    JoinMore([letters + "." + FourDigits(n)], behind, ".");
    Reassociate(letters + "." + FourDigits(n), ".", Join(behind, "."));
    Reassociate(letters + ".", FourDigits(n), Tail(rest));
    Reassociate(letters, ".", FourDigits(n) + Tail(rest));
  }

  /** Otherwise the key is the call number as it came. */
  lemma KeyOfUnpadded(callNumber: string, letters: string, gap: string, n: nat, rest: string)
    requires Starts(callNumber, letters, gap, n, rest) && !Continues(rest)
    ensures Forced(callNumber) == Some(SortKey(callNumber))
    ensures SortKey(callNumber) == callNumber == (letters + gap) + (Number(n) + rest)
  {
    DotParts(callNumber, letters, gap, n, rest);
    if rest == "" {
      assert DropTrailingEmpty([""]) == DropTrailingEmpty([""][..0]) == [];
    } else {
      ContinuesMeaning(rest);
    }
    Reassociate(letters + gap, Number(n), rest);
  }

  /** Two call numbers with the same letters and the numbers n < m, whatever follows, sort like n and m
      exactly when the first is padded, or neither is and they happen to sort that way as they came. */
  lemma PaddingPreservesOrder(
    a: string, b: string, letters: string, n: nat, m: nat, afterN: string, afterM: string)
    requires Starts(a, letters, "", n, afterN) && Starts(b, letters, "", m, afterM) && n < m < 10000
    ensures Less(SortKey(a), SortKey(b)) <==> Continues(afterN) || (!Continues(afterM) && Less(a, b))
  {
    assert letters + "" == letters;
    if Continues(afterN) {
      var s, t := Tail(afterN), Tail(afterM);
      KeyOfPadded(a, letters, "", n, afterN);
      if Continues(afterM) {
        KeyOfPadded(b, letters, "", m, afterM);
        LessAfter(letters, "." + (FourDigits(n) + s), "." + (FourDigits(m) + t));
        LessAfter(".", FourDigits(n) + s, FourDigits(m) + t);
        FourDigitsInOrder(n, m, s, t);
      } else {
        KeyOfUnpadded(b, letters, "", m, afterM);
        LessAfter(letters, "." + (FourDigits(n) + s), Number(m) + afterM);
      }
    } else {
      KeyOfUnpadded(a, letters, "", n, afterN);
      if Continues(afterM) {
        KeyOfPadded(b, letters, "", m, afterM);
        LessAfter(letters, Number(n) + afterN, "." + (FourDigits(m) + Tail(afterM)));
      } else {
        KeyOfUnpadded(b, letters, "", m, afterM);
      }
    }
  }

  lemma TwoNumbers()
    ensures Number(53) == "53" && Number(100) == "100"
  {
    NumberOneMore(53);
    NumberOneMore(100);
    NumberOneMore(10);
  }

  lemma ExampleStarts()
    ensures Starts("A53.blah", "A", "", 53, ".blah") && Continues(".blah")
  {
    TwoNumbers();
    assert "A53.blah" == ("A" + "") + "53" + ".blah";
    assert ".blah"[1] == 'b';
  }

  lemma ExampleTail()
    ensures Tail(".blah") == ".blah"
  {
    assert CommasToDots(".blah") == ".blah";
    assert ".blah"[|".blah"| - 1] == 'h';
  }

  lemma ExampleDigits()
    ensures FourDigits(53) == "0053"
  {
  }

  lemma ExampleKey(callNumber: string, rest: string)
    requires Starts(callNumber, "A", "", 53, rest) && Continues(rest) && Tail(rest) == rest
    ensures SortKey(callNumber) == "A" + ("." + ("0053" + rest))
  {
    ExampleDigits();
    KeyOfPadded(callNumber, "A", "", 53, rest);
  }

  /** The key of the program's own example has a dot in front of the number. */
  lemma DotBeforeNumber()
    ensures SortKey("A53.blah") == "A.0053.blah"
  {
    ExampleStarts();
    ExampleTail();
    ExampleKey("A53.blah", ".blah");
    assert "A" + ("." + ("0053" + ".blah")) == "A.0053.blah";
  }

  /** A blank between letters and number is no obstacle, and is not in the key. */
  lemma BlankIsDropped()
    ensures SortKey("DVD 53.x") == "DVD.0053.x"
  {
    ApartStarts();
    ApartKey("DVD 53.x", ".x");
    assert "DVD" + ("." + ("0053" + ".x")) == "DVD.0053.x";
  }

  lemma ApartStarts()
    ensures Starts("DVD 53.x", "DVD", " ", 53, ".x") && Continues(".x") && Tail(".x") == ".x"
  {
    TwoNumbers();
    assert "DVD 53.x" == ("DVD" + " ") + "53" + ".x";
    assert ".x"[1] == 'x' && CommasToDots(".x") == ".x";
  }

  lemma ApartKey(callNumber: string, rest: string)
    requires Starts(callNumber, "DVD", " ", 53, rest) && Continues(rest) && Tail(rest) == rest
    ensures SortKey(callNumber) == "DVD" + ("." + ("0053" + rest))
  {
    ExampleDigits();
    KeyOfPadded(callNumber, "DVD", " ", 53, rest);
  }

  /** A53 with nothing but a dot behind it sorts after A100 with more. */
  lemma UnpaddedSortsLast()
    ensures !Less(SortKey("A53."), SortKey("A100.x"))
  {
    TwoNumbers();
    assert "A53." == ("A" + "") + "53" + "." && "A100.x" == ("A" + "") + "100" + ".x";
    assert ".x"[1] == 'x';
    assert Starts("A53.", "A", "", 53, ".") && Starts("A100.x", "A", "", 100, ".x");
    PaddingPreservesOrder("A53.", "A100.x", "A", 53, 100, ".", ".x");
  }
}

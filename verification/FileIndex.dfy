/** Choosing the number of the next recording: scan the directory, parse the numbers of the names
    that match, and take one more than the largest. */
module FileIndex {
  import opened Words

  const ULONG_MAX: u32 := 0xffff_ffff
  const SUFFIX: string := ".wav"

  predicate IsDigit(c: char) {
    '0' <= c <= '9'
  }

  predicate IsSpace(c: char) {
    c == ' ' || '\t' <= c <= '\r'
  }

  function DigitOf(n: nat): char
    requires n < 10
    ensures IsDigit(DigitOf(n))
  {
    '0' + n as char
  }

  /** Decimal digits of a number. */
  function Decimal(n: nat): (s: string)
    ensures s != "" && forall i | 0 <= i < |s| :: IsDigit(s[i])
  {
    if n < 10 then [DigitOf(n)] else Decimal(n / 10) + [DigitOf(n % 10)]
  }

  /** "%04u". */
  function Padded(s: string): string
    decreases 4 - |s|
  {
    if |s| < 4 then Padded("0" + s) else s
  }

  function FileName(prefix: string, index: u32): string {
    prefix + "_" + Padded(Decimal(index)) + SUFFIX
  }

  lemma {:induction false} NoLeadingZero(n: nat)
    ensures n > 0 ==> Decimal(n)[0] != '0'
  {
    if n >= 10 {
      NoLeadingZero(n / 10);
    }
  }

  lemma {:induction false} PaddedIs(s: string, zeros: string)
    requires |zeros| == (if |s| < 4 then 4 - |s| else 0) && forall i | 0 <= i < |zeros| :: zeros[i] == '0'
    ensures Padded(s) == zeros + s
    decreases |zeros|
  {
    if |s| < 4 {
      PaddedIs("0" + s, zeros[1..]);
      assert zeros[1..] + ("0" + s) == zeros + s;
    } else {
      assert zeros + s == s;
    }
  }

  /** Names carry their number in decimal, with zeros in front up to four digits. */
  lemma FileNameIs(prefix: string, index: u32, d: string, zeros: string)
    requires d == Decimal(index)
    requires |zeros| == (if |d| < 4 then 4 - |d| else 0) && forall i | 0 <= i < |zeros| :: zeros[i] == '0'
    ensures FileName(prefix, index) == prefix + "_" + (zeros + d) + ".wav"
    ensures index > 0 ==> d[0] != '0'
  {
    hide Padded, Decimal;
    NoLeadingZero(index);
    PaddedIs(d, zeros);
  }

  // strtoul, base 10.

  function DigitRun(s: string): (n: nat)
    ensures n <= |s| && (forall i | 0 <= i < n :: IsDigit(s[i])) && (n < |s| ==> !IsDigit(s[n]))
  {
    if s != "" && IsDigit(s[0]) then 1 + DigitRun(s[1..]) else 0
  }

  function Value(s: string): nat {
    if s == "" || !IsDigit(s[|s| - 1]) then 0
    else Value(s[..|s| - 1]) * 10 + (s[|s| - 1] as int - '0' as int)
  }

  function SkipSpace(s: string): (n: nat)
    ensures n <= |s|
  {
    if s != "" && IsSpace(s[0]) then 1 + SkipSpace(s[1..]) else 0
  }

  datatype Parsed = NoNumber | Number(value: u32, rest: string)

  /** Leading space and one sign are allowed; a minus sign negates the word; a number out of range
      reads as ULONG_MAX. */
  function Strtoul(s: string): Parsed {
    var start := s[SkipSpace(s)..];
    var signed := start != "" && (start[0] == '+' || start[0] == '-');
    var digits := if signed then start[1..] else start;
    var n := DigitRun(digits);
    if n == 0 then NoNumber
    else
      var v: int := Value(digits[..n]);
      Number(if v > ULONG_MAX then ULONG_MAX
             else if signed && start[0] == '-' then Wrap32(-v) else v, digits[n..])
  }

  datatype Entry = Skip | OutOfRange | Index(index: u32)

  /** What the scan makes of one directory entry. */
  function Classify(prefix: string, name: string): Entry {
    if |name| < |prefix| + 1 || name[..|prefix|] != prefix || name[|prefix|] != '_' then Skip
    else
      match Strtoul(name[|prefix| + 1..])
      case NoNumber => Skip
      case Number(value, rest) =>
        if value == ULONG_MAX then OutOfRange else if rest != SUFFIX then Skip else Index(value)
  }

  lemma {:induction false} ValueDecimal(n: nat)
    ensures Value(Decimal(n)) == n
  {
    if n >= 10 {
      ValueDecimal(n / 10);
      assert Decimal(n)[..|Decimal(n)| - 1] == Decimal(n / 10);
    } else {
      assert [DigitOf(n)][..0] == "";
    }
  }

  lemma {:induction false} ValueLeadingZero(s: string)
    requires s != "" && forall i | 0 <= i < |s| :: IsDigit(s[i])
    ensures Value("0" + s) == Value(s)
  {
    var t := "0" + s;
    if |s| == 1 {
      assert t[..1] == "0" && s[..0] == "" && "0"[..0] == "";
    } else {
      ValueLeadingZero(s[..|s| - 1]);
      assert t[..|t| - 1] == "0" + s[..|s| - 1];
    }
  }

  lemma {:induction false} PaddedIsDigits(s: string)
    requires s != "" && forall i | 0 <= i < |s| :: IsDigit(s[i])
    ensures Padded(s) != "" && (forall i | 0 <= i < |Padded(s)| :: IsDigit(Padded(s)[i]))
    ensures Value(Padded(s)) == Value(s)
    decreases 4 - |s|
  {
    if |s| < 4 {
      ValueLeadingZero(s);
      PaddedIsDigits("0" + s);
    }
  }

  lemma {:induction false} DigitRunIs(s: string, rest: string)
    requires forall i | 0 <= i < |s| :: IsDigit(s[i])
    requires rest == "" || !IsDigit(rest[0])
    ensures DigitRun(s + rest) == |s|
  {
    if s == "" {
      assert "" + rest == rest;
    } else {
      DigitRunIs(s[1..], rest);
      assert (s + rest)[1..] == s[1..] + rest;
    }
  }

  /** Parsing undoes printing for every index below the maximum, which reads as out of range. */
  lemma ClassifyFileName(prefix: string, index: u32)
    ensures Classify(prefix, FileName(prefix, index)) == if index == ULONG_MAX then OutOfRange else Index(index)
  {
    var d := Padded(Decimal(index));
    ValueDecimal(index);
    PaddedIsDigits(Decimal(index));
    StrtoulDigits(d, SUFFIX);
    hide *;
    NamesRead(prefix, d, SUFFIX, index);
    assert FileName(prefix, index) == prefix + "_" + d + SUFFIX by { FileNameParts(prefix, index); }
  }

  lemma FileNameParts(prefix: string, index: u32)
    ensures FileName(prefix, index) == prefix + "_" + Padded(Decimal(index)) + SUFFIX
  {
  }

  lemma {:induction false} SkipSpaceIs(space: string, more: string)
    requires (forall i | 0 <= i < |space| :: IsSpace(space[i])) && (more == "" || !IsSpace(more[0]))
    ensures SkipSpace(space + more) == |space|
  {
    if space == "" {
      assert "" + more == more;
    } else {
      SkipSpaceIs(space[1..], more);
      assert (space + more)[1..] == space[1..] + more;
    }
  }

  predicate IsSign(sign: string) {
    sign == "" || sign == "+" || sign == "-"
  }

  /** Reading a number: space and one sign may come before it, a minus sign negates the word, and a number
      too large for a word reads as the largest. */
  lemma StrtoulReads(space: string, sign: string, d: string, rest: string)
    requires (forall i | 0 <= i < |space| :: IsSpace(space[i])) && IsSign(sign)
    requires d != "" && (forall i | 0 <= i < |d| :: IsDigit(d[i])) && (rest == "" || !IsDigit(rest[0]))
    ensures var v: int := Value(d);
            Strtoul(space + (sign + (d + rest))) ==
            Number(if v >= 0x1_0000_0000 then 0xffff_ffff else if sign == "-" then Wrap32(-v) else v, rest)
  {
    hide Value, Wrap32, DigitRun, SkipSpace, Strtoul, IsDigit, IsSpace;
    var digits := d + rest;
    var start := sign + digits;
    assert digits[0] == d[0];
    NotSpace(start, sign, digits);
    SkipSpaceIs(space, start);
    DigitRunIs(d, rest);
    hide *;
    SplitAt(space, start);
    SplitAt(d, rest);
    StrtoulParts(space + start, start, sign, digits, |d|);
  }

  lemma SplitAt(a: string, b: string)
    ensures (a + b)[..|a|] == a && (a + b)[|a|..] == b
  {
  }

  lemma NotSpace(start: string, sign: string, digits: string)
    requires start == sign + digits && IsSign(sign) && digits != "" && IsDigit(digits[0])
    ensures start != "" && !IsSpace(start[0])
  {
  }

  lemma StrtoulParts(s: string, start: string, sign: string, digits: string, n: nat)
    requires s[SkipSpace(s)..] == start == sign + digits && IsSign(sign)
    requires digits != "" && IsDigit(digits[0]) && n == DigitRun(digits) > 0
    ensures var v: int := Value(digits[..n]);
            Strtoul(s) == Number(if v >= 0x1_0000_0000 then 0xffff_ffff
                                 else if sign == "-" then Wrap32(-v) else v, digits[n..])
  {
    hide Value, Wrap32, DigitRun, SkipSpace;
    if sign == "" {
      assert start == digits;
    } else {
      assert start[0] == sign[0] && start[1..] == digits;
    }
  }

  lemma StrtoulDigits(d: string, rest: string)
    requires d != "" && (forall i | 0 <= i < |d| :: IsDigit(d[i])) && Value(d) <= ULONG_MAX
    requires rest == "" || !IsDigit(rest[0])
    ensures Strtoul(d + rest) == Number(Value(d), rest)
  {
    StrtoulReads("", "", d, rest);
    assert "" + ("" + (d + rest)) == d + rest;
    hide *;
  }

  lemma NameMustMatch(prefix: string, name: string)
    ensures !Classify(prefix, name).Skip? ==> prefix + "_" <= name && !Strtoul(name[|prefix| + 1..]).NoNumber?
  {
    hide Strtoul;
    if !Classify(prefix, name).Skip? {
      assert name[..|prefix| + 1] == prefix + "_";
    }
  }

  lemma FileNameInjective(prefix: string, i: u32, j: u32)
    requires FileName(prefix, i) == FileName(prefix, j)
    ensures i == j
  {
    ClassifyFileName(prefix, i);
    ClassifyFileName(prefix, j);
  }

  /** What a matching name must be, apart from the number: prefix, underscore, number and suffix. */
  lemma NamesRead(prefix: string, number: string, rest: string, value: u32)
    requires Strtoul(number + rest) == Number(value, rest)
    ensures Classify(prefix, prefix + "_" + number + rest) ==
            if value == 0xffff_ffff then OutOfRange else if rest == ".wav" then Index(value) else Skip
  {
    hide Strtoul;
    var name := prefix + "_" + number + rest;
    assert name == prefix + ("_" + (number + rest));
    assert name[|prefix| + 1..] == number + rest;
  }

  // The next index.

  /** No name from this index on is taken. */
  ghost predicate FreeFrom(prefix: string, names: seq<string>, index: u32) {
    forall k: u32 | index <= k :: FileName(prefix, k) !in names
  }

  /** The index is one more than the largest in use, and nothing in use is out of range. */
  ghost predicate IsNextIndex(prefix: string, names: seq<string>, index: u32) {
    && (forall i | 0 <= i < |names| :: Classify(prefix, names[i]) != OutOfRange)
    && (forall i | 0 <= i < |names| && Classify(prefix, names[i]).Index? ::
          Classify(prefix, names[i]).index < index)
    && (index > 0 ==> exists i | 0 <= i < |names| :: Classify(prefix, names[i]) == Index(index - 1))
  }

  lemma NextIndexIsFree(prefix: string, names: seq<string>, index: u32)
    requires IsNextIndex(prefix, names, index)
    ensures FreeFrom(prefix, names, index)
  {
    forall k: u32 | index <= k
      ensures FileName(prefix, k) !in names
    {
      ClassifyFileName(prefix, k);
      hide Classify, FileName;
    }
  }

  /** Creating the next file keeps the later names free exactly until the index wraps. */
  lemma CreatedKeepsFree(prefix: string, names: seq<string>, index: u32)
    requires FreeFrom(prefix, names, index)
    ensures FreeFrom(prefix, names + [FileName(prefix, index)], Wrap32(index + 1)) <==> index < ULONG_MAX
  {
    var names', next := names + [FileName(prefix, index)], Wrap32(index + 1);
    hide FileName;
    if index < ULONG_MAX {
      forall k: u32 | next <= k
        ensures FileName(prefix, k) !in names'
      {
        assert FileName(prefix, k) !in names;
        if FileName(prefix, k) == FileName(prefix, index) {
          FileNameInjective(prefix, k, index);
        }
      }
    } else {
      assert names'[|names|] == FileName(prefix, index);
    }
  }

  // Opening files with successive numbers from `first` on, the numbers counted without wrapping.

  /** Opening file number `number` truncates a file: one that was there at the start, or the one opened
      2^32 numbers before. */
  predicate Taken(prefix: string, initial: seq<string>, first: nat, number: nat) {
    FileName(prefix, Wrap32(number)) in initial || number >= first + TWO_32
  }

  function Truncated(prefix: string, initial: seq<string>, first: nat, count: nat): nat {
    if count == 0 then 0
    else Truncated(prefix, initial, first, count - 1) + if Taken(prefix, initial, first, first + count - 1) then 1 else 0
  }

  /** The names in the directory once `count` files have been opened. */
  ghost predicate NamesAfter(prefix: string, initial: seq<string>, names: seq<string>, first: nat, count: nat) {
    && initial <= names
    && (forall k | first <= k < first + count :: FileName(prefix, Wrap32(k)) in names)
    && (forall s | s in names :: s in initial || exists k | first <= k < first + count :: s == FileName(prefix, Wrap32(k)))
  }

  lemma SameNumber(prefix: string, j: nat, k: nat)
    requires j < k && FileName(prefix, Wrap32(j)) == FileName(prefix, Wrap32(k))
    ensures k - j >= TWO_32
  {
    FileNameInjective(prefix, Wrap32(j), Wrap32(k));
    hide FileName;
  }

  lemma InDirectoryIffTaken(prefix: string, initial: seq<string>, names: seq<string>, first: nat, count: nat)
    requires NamesAfter(prefix, initial, names, first, count)
    ensures FileName(prefix, Wrap32(first + count)) in names <==> Taken(prefix, initial, first, first + count)
  {
    hide FileName;
    var number := first + count;
    var name := FileName(prefix, Wrap32(number));
    if name in names && name !in initial {
      var k :| first <= k < number && name == FileName(prefix, Wrap32(k));
      SameNumber(prefix, k, number);
    }
    if number >= first + TWO_32 {
      var k := number - TWO_32;
      assert Wrap32(k) == Wrap32(number);
      assert FileName(prefix, Wrap32(k)) in names;
    }
  }

  lemma NamesGrow(prefix: string, initial: seq<string>, names: seq<string>, first: nat, count: nat)
    requires NamesAfter(prefix, initial, names, first, count)
    ensures var name := FileName(prefix, Wrap32(first + count));
            NamesAfter(prefix, initial, if name in names then names else names + [name], first, count + 1)
  {
    hide FileName, Wrap32;
    var name := FileName(prefix, Wrap32(first + count));
    var after := if name in names then names else names + [name];
    forall s | s in after
      ensures s in initial || exists k | first <= k < first + (count + 1) :: s == FileName(prefix, Wrap32(k))
    {
      if s in names && s !in initial {
        var k :| first <= k < first + count && s == FileName(prefix, Wrap32(k));
      }
    }
  }

  lemma {:induction false} TruncatedNothingIff(prefix: string, initial: seq<string>, first: nat, count: nat)
    ensures Truncated(prefix, initial, first, count) == 0 <==>
            forall k | first <= k < first + count :: !Taken(prefix, initial, first, k)
  {
    if count > 0 {
      TruncatedNothingIff(prefix, initial, first, count - 1);
      hide Taken;
    }
  }

  /** No number of opens truncates a file before the number wraps if and only if all names from the first
      number on are free. */
  lemma NeverTruncatesIff(prefix: string, initial: seq<string>, first: u32)
    ensures FreeFrom(prefix, initial, first) <==>
            forall count: nat | first + count <= TWO_32 :: Truncated(prefix, initial, first, count) == 0
  {
    hide FileName;
    if FreeFrom(prefix, initial, first) {
      forall count: nat | first + count <= TWO_32
        ensures Truncated(prefix, initial, first, count) == 0
      {
        TruncatedNothingIff(prefix, initial, first, count);
      }
    } else {
      var k: u32 :| first <= k && FileName(prefix, k) in initial;
      TruncatedNothingIff(prefix, initial, first, k - first + 1);
      assert Taken(prefix, initial, first, k);
    }
  }

  // What a scan that stops early leaves.

  lemma FreeInParts(prefix: string, before: seq<string>, after: seq<string>, index: u32)
    ensures FreeFrom(prefix, before + after, index) <==>
            FreeFrom(prefix, before, index) && FreeFrom(prefix, after, index)
  {
    hide FileName;
  }

  /** The number a scan of the first n entries leaves is safe if and only if it is safe for the entries
      it did not reach. */
  lemma StoppedScanIsSafeIff(prefix: string, names: seq<string>, n: nat, index: u32)
    requires n <= |names| && IsNextIndex(prefix, names[..n], index)
    ensures FreeFrom(prefix, names, index) <==> FreeFrom(prefix, names[n..], index)
  {
    hide IsNextIndex, FreeFrom;
    NextIndexIsFree(prefix, names[..n], index);
    FreeInParts(prefix, names[..n], names[n..], index);
    assert names[..n] + names[n..] == names;
  }

  /** The smallest unsafe directory: the name with the largest number reads as out of range and stops
      the scan before it has seen the recording with number 0, and number 0 is what it leaves. */
  lemma StoppedTooEarly(prefix: string)
    ensures var names := [FileName(prefix, ULONG_MAX), FileName(prefix, 0)];
            && IsNextIndex(prefix, names[..0], 0) && Classify(prefix, names[0]) == OutOfRange
            && !FreeFrom(prefix, names, 0) && FileName(prefix, 0) in names
  {
    ClassifyFileName(prefix, ULONG_MAX);
    var names := [FileName(prefix, ULONG_MAX), FileName(prefix, 0)];
    NothingScanned(prefix);
    hide FileName, Classify, IsNextIndex;
    assert names[..0] == [] && names[1] == FileName(prefix, 0);
  }

  datatype Scan = Complete | NoDirectory | ReadError | OutOfIndices

  /** The scan as written. Opening the directory may fail, and reading it at any entry. The file number
      is set to what has been seen so far, whether or not the scan completes; `scanned` is how many
      entries that is. */
  method FindNextFileIndex(prefix: string, names: seq<string>, current: u32)
      returns (result: Scan, fileIndex: u32, ghost scanned: nat)
    ensures result == NoDirectory ==> fileIndex == current
    ensures scanned <= |names| && (result != NoDirectory ==> IsNextIndex(prefix, names[..scanned], fileIndex))
    ensures result == Complete ==> scanned == |names| && IsNextIndex(prefix, names, fileIndex)
    ensures result == OutOfIndices ==> scanned < |names| && Classify(prefix, names[scanned]) == OutOfRange
  {
    hide Strtoul, IsNextIndex;
    fileIndex, scanned := current, 0;
    var fault: bool := *;
    if fault {
      return NoDirectory, fileIndex, scanned;
    }
    fileIndex := 0;
    NothingScanned(prefix);
    var n := 0;
    while n < |names|
      invariant n <= |names| && IsNextIndex(prefix, names[..n], fileIndex)
    {
      fault := *;
      if fault {
        return ReadError, fileIndex, n;
      }
      var name := names[n];
      NextAfter(prefix, names, n, fileIndex);
      n := n + 1;
      if |name| < |prefix| + 1 {
        continue;
      }
      if name[..|prefix|] != prefix {
        continue;
      }
      if name[|prefix|] != '_' {
        continue;
      }
      match Strtoul(name[|prefix| + 1..]) {
        case NoNumber =>
          continue;
        case Number(index, rest) =>
          if index == ULONG_MAX {
            return OutOfIndices, fileIndex, n - 1;
          }
          if rest != SUFFIX {
            continue;
          }
          if index + 1 > fileIndex {
            fileIndex := index + 1;
          }
      }
    }
    assert names[..|names|] == names;
    return Complete, fileIndex, n;
  }

  lemma NothingScanned(prefix: string)
    ensures IsNextIndex(prefix, [], 0)
  {
  }

  lemma NextAfter(prefix: string, names: seq<string>, n: nat, index: u32)
    requires n < |names| && IsNextIndex(prefix, names[..n], index)
    ensures match Classify(prefix, names[n])
            case Skip => IsNextIndex(prefix, names[..n + 1], index)
            case OutOfRange => true
            case Index(i) => IsNextIndex(prefix, names[..n + 1], if i + 1 > index then i + 1 else index)
  {
    hide Classify;
    var before, after := names[..n], names[..n + 1];
    assert after == before + [names[n]];
    if index > 0 {
      var i :| 0 <= i < |before| && Classify(prefix, before[i]) == Index(index - 1);
      assert after[i] == before[i];
    }
    assert after[n] == names[n];
  }
}

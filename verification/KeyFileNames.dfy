/**
 Key files are named `obj_%08lx.dat` after their handle, and the directory listing reads the
 handle back with `sscanf("obj_%08lx.dat")`, whose field width makes it stop after eight characters.
 */
module KeyFileNames {
  import opened Common

  const PREFIX: string := "obj_"
  const SUFFIX: string := ".dat"
  const DIGITS: string := "0123456789abcdef"

  /** `%0<width>lx`: lower-case hexadecimal, zero-padded to at least `width` digits. */
  function Hex(v: nat, width: nat): (s: string)
    ensures |s| >= width && |s| >= 1
    decreases v, width
  {
    if v < 16 && width <= 1 then [DIGITS[v]]
    else Hex(v / 16, if width == 0 then 0 else width - 1) + [DIGITS[v % 16]]
  }

  function KeyFileName(handle: nat): string {
    PREFIX + Hex(handle, 8) + SUFFIX
  }

  /** The value of a hexadecimal digit, in either case, or None. */
  function DigitValue(c: char): (v: Option<nat>)
    ensures v.Some? ==> v.value < 16
  {
    if '0' <= c <= '9' then Some(c as int - '0' as int)
    else if 'a' <= c <= 'f' then Some(10 + (c as int - 'a' as int))
    else if 'A' <= c <= 'F' then Some(10 + (c as int - 'A' as int))
    else None
  }

  predicate IsHex(s: string) {
    forall i :: 0 <= i < |s| ==> DigitValue(s[i]).Some?
  }

  function HexValue(s: string): nat
    requires IsHex(s)
  {
    if |s| == 0 then 0 else 16 * HexValue(s[..|s| - 1]) + DigitValue(s[|s| - 1]).value
  }

  /** The number of leading hexadecimal digits, at most `limit`. */
  function Span(s: string, limit: nat): (n: nat)
    ensures n <= |s| && n <= limit && IsHex(s[..n])
    ensures n == limit || n == |s| || DigitValue(s[n]).None?
  {
    if limit == 0 || |s| == 0 || DigitValue(s[0]).None? then 0
    else
      var n := Span(s[1..], limit - 1);
      assert s[..n + 1] == [s[0]] + s[1..][..n];
      n + 1
  }

  predicate IsSpace(c: char) {
    c == ' ' || 9 <= c as int <= 13
  }

  function SkipSpace(s: string): string {
    if |s| > 0 && IsSpace(s[0]) then SkipSpace(s[1..]) else s
  }

  /** The digits of the conversion, at least one and at most `width`. */
  function ScanDigits(s: string, width: nat): Option<nat> {
    var n := Span(s, width);
    if n == 0 then None else Some(HexValue(s[..n]))
  }

  predicate HasHexPrefix(s: string, width: nat) {
    width >= 2 && |s| >= 2 && s[0] == '0' && (s[1] == 'x' || s[1] == 'X')
  }

  /** With the sign read: `0x` or `0X` may come first, and counts against the width. */
  function ScanUnsigned(s: string, width: nat): Option<nat> {
    if HasHexPrefix(s, width) then ScanDigits(s[2..], width - 2) else ScanDigits(s, width)
  }

  /**
   The conversion `%08lx` (section 7.21.6.2 of C11): white space is skipped, then at most eight characters are read, a
   sign, `0x` and hexadecimal digits; a minus sign negates in 64 bits.
   */
  function ScanHex(s: string): Option<nat> {
    var t := SkipSpace(s);
    if |t| > 0 && (t[0] == '+' || t[0] == '-') then
      match ScanUnsigned(t[1..], 7)
      case Some(v) => Some(if t[0] == '-' then (TWO64 - v) % TWO64 else v)
      case None => None
    else ScanUnsigned(t, 8)
  }

  /** The handle a directory entry is listed under; the text after the digits is not checked. */
  function ScanHandle(name: string): Option<nat> {
    if |name| < 4 || name[..4] != PREFIX then None else ScanHex(name[4..])
  }

  // ----- printing and scanning undo each other -----

  function Pow16(n: nat): (p: nat)
    ensures p > 0
  {
    if n == 0 then 1 else 16 * Pow16(n - 1)
  }

  lemma {:induction false} HexIsExact(v: nat, width: nat)
    ensures IsHex(Hex(v, width)) && HexValue(Hex(v, width)) == v
    decreases v, width
  {
    var s := Hex(v, width);
    var n := |s| - 1;
    DigitIsExact(v % 16);
    if v < 16 && width <= 1 {
      assert s[..0] == "";
    } else {
      var w := if width == 0 then 0 else width - 1;
      HexIsExact(v / 16, w);
      assert s[..n] == Hex(v / 16, w) && s[n] == DIGITS[v % 16];
      assert forall i :: 0 <= i < n ==> s[i] == s[..n][i];
    }
  }

  lemma DigitIsExact(d: nat)
    requires d < 16
    ensures DigitValue(DIGITS[d]) == Some(d)
  {
  }

  lemma {:induction false} HexValueBound(s: string)
    requires IsHex(s)
    ensures HexValue(s) < Pow16(|s|)
  {
    if |s| != 0 {
      HexValueBound(s[..|s| - 1]);
    }
  }

  /** Exactly eight digits are printed exactly for numbers below 16^8. */
  lemma {:induction false} HexLength(v: nat, width: nat)
    requires width > 0
    ensures |Hex(v, width)| == width <==> v < Pow16(width)
    decreases v, width
  {
    if v < 16 && width <= 1 {
      assert Pow16(1) == 16;
    } else if width == 1 {
      assert Pow16(1) == 16;
    } else {
      HexLength(v / 16, width - 1);
    }
  }

  lemma Pow16Eight()
    ensures Pow16(8) == TWO32
  {
    assert Pow16(4) == 65536;
    assert Pow16(8) == 65536 * Pow16(4);
  }

  lemma {:induction false} SpanAllDigits(s: string, tail: string, limit: nat)
    requires IsHex(s) && |tail| > 0 && DigitValue(tail[0]).None?
    ensures Span(s + tail, limit) == Min(|s|, limit)
  {
    if |s| == 0 {
      assert (s + tail)[0] == tail[0];
    } else if limit != 0 {
      assert (s + tail)[0] == s[0] && (s + tail)[1..] == s[1..] + tail;
      SpanAllDigits(s[1..], tail, limit - 1);
    }
  }

  /** Two hexadecimal digits in front leave nothing to skip, no sign and no `0x`. */
  lemma PlainScan(s: string)
    requires |s| >= 2 && IsHex(s[..2])
    ensures ScanHex(s) == ScanDigits(s, 8)
  {
    assert DigitValue(s[..2][0]).Some? && DigitValue(s[..2][1]).Some?;
  }

  /** The listing reads back the handle a file was named after exactly when it is below 2^32. */
  lemma ScanInvertsName(h: nat)
    ensures ScanHandle(KeyFileName(h)) == Some(h) <==> h < TWO32
    ensures ScanHandle(KeyFileName(h)).Some?
  {
    var s := Hex(h, 8);
    var name := KeyFileName(h);
    assert name[..4] == PREFIX && name[4..] == s + SUFFIX;
    HexIsExact(h, 8);
    HexLength(h, 8);
    Pow16Eight();
    SpanAllDigits(s, SUFFIX, 8);
    assert (s + SUFFIX)[..8] == s[..8] && (s + SUFFIX)[..2] == s[..2];
    PlainScan(s + SUFFIX);
    if h < TWO32 {
      assert s[..8] == s;
    } else {
      HexValueBound(s[..8]);
    }
  }

  /** The name of a handle of eight hexadecimal digits: lower case, the highest first. */
  lemma NameOfDigits(digits: seq<Digit>)
    requires |digits| == 8
    ensures KeyFileName(FromDigits(digits)) == "obj_" + DigitChars(digits) + ".dat"
  {
    HexOfDigits(digits);
  }

  type Digit = d: nat | d < 16

  /** Lower case. */
  function DigitChar(d: Digit): char {
    if d < 10 then ('0' as int + d) as char else ('a' as int + (d - 10)) as char
  }

  lemma DigitsAreCharacters(d: Digit)
    ensures DIGITS[d] == DigitChar(d)
  {
  }

  lemma HexDigit(v: nat, digit: Digit, width: nat)
    requires width > 1
    ensures Hex(16 * v + digit, width) == Hex(v, width - 1) + [DigitChar(digit)]
  {
    DigitsAreCharacters(digit);
    assert (16 * v + digit) / 16 == v && (16 * v + digit) % 16 == digit;
  }

  /** The digits `value` stands for, the highest first. */
  function FromDigits(digits: seq<Digit>): nat {
    if |digits| == 0 then 0 else 16 * FromDigits(digits[..|digits| - 1]) + digits[|digits| - 1]
  }

  function DigitChars(digits: seq<Digit>): string {
    if |digits| == 0 then "" else DigitChars(digits[..|digits| - 1]) + [DigitChar(digits[|digits| - 1])]
  }

  /** As many digits as the width are written one for one. */
  lemma {:induction false} HexOfDigits(digits: seq<Digit>)
    requires |digits| > 0
    ensures Hex(FromDigits(digits), |digits|) == DigitChars(digits)
  {
    var n := |digits| - 1;
    if n == 0 {
      DigitsAreCharacters(digits[0]);
    } else {
      HexOfDigits(digits[..n]);
      HexDigit(FromDigits(digits[..n]), digits[n], n + 1);
    }
  }

  /** A concrete handle that is listed under another one: its name has nine digits. */
  lemma NineDigitHandleIsMisread()
    ensures ScanHandle(KeyFileName(0x1_0000_0000)) != Some(0x1_0000_0000)
  {
    ScanInvertsName(0x1_0000_0000);
  }

  /** Distinct handles get distinct files, whatever their size. */
  lemma NamesDistinct(h: nat, g: nat)
    ensures KeyFileName(h) == KeyFileName(g) ==> h == g
  {
    if KeyFileName(h) == KeyFileName(g) {
      var s, t := Hex(h, 8), Hex(g, 8);
      assert s == KeyFileName(h)[4..|KeyFileName(h)| - 4];
      assert t == KeyFileName(g)[4..|KeyFileName(g)| - 4];
      HexIsExact(h, 8);
      HexIsExact(g, 8);
    }
  }

  // ----- listing the directory -----

  /** The handles read from directory entries, in the order `readdir` gives them. */
  function Listed(entries: seq<string>): (hs: seq<nat>)
    ensures |hs| <= |entries|
  {
    if |entries| == 0 then []
    else
      var front := Listed(entries[..|entries| - 1]);
      var h := ScanHandle(entries[|entries| - 1]);
      if h.Some? then front + [h.value] else front
  }

  /** `hsm_storage_list_objects` on an open directory: at most 1024 handles, in directory order. */
  method ListObjects(entries: seq<string>, handles: array?<nat>) returns (n: nat)
    requires handles != null ==> handles.Length >= MAX_OBJECTS
    modifies handles
    ensures n == Min(|Listed(entries)|, MAX_OBJECTS)
    ensures handles != null ==> handles[..n] == Listed(entries)[..n] && handles[n..] == old(handles[n..])
  {
    n := 0;
    var i := 0;
    while i < |entries| && n < MAX_OBJECTS
      invariant i <= |entries| && n == |Listed(entries[..i])| <= MAX_OBJECTS
      invariant handles != null ==> handles[..n] == Listed(entries[..i])
      invariant handles != null ==> forall k :: n <= k < handles.Length ==> handles[k] == old(handles[k])
    {
      var entry := entries[i];
      assert entries[..i + 1][..i] == entries[..i];
      if |entry| >= 4 && entry[..4] == PREFIX {
        var h := ScanHandle(entry);
        if h.Some? {
          if handles != null {
            handles[n] := h.value;
          }
          n := n + 1;
        }
      }
      i := i + 1;
    }
    ListedPrefix(entries, i);
    assert entries[..|entries|] == entries;
  }

  lemma {:induction false} ListedPrefix(entries: seq<string>, i: nat)
    requires i <= |entries|
    ensures Listed(entries[..i]) <= Listed(entries)
    decreases |entries| - i
  {
    if i == |entries| {
      assert entries[..i] == entries;
    } else {
      ListedPrefix(entries, i + 1);
      assert entries[..i + 1][..i] == entries[..i];
    }
  }

  /** The entries of a directory that holds the key files of `hs` and no other file that scans. */
  ghost predicate DirectoryOf(entries: seq<string>, hs: set<nat>) {
    && (forall i, j :: 0 <= i < j < |entries| ==> entries[i] != entries[j])
    && (forall h :: h in hs ==> KeyFileName(h) in entries)
    && (forall e :: e in entries && ScanHandle(e).Some? ==> exists h :: h in hs && e == KeyFileName(h))
  }

  /** Listing the files saved for handles below 2^32 gives exactly those handles, each once. */
  lemma ListedExactly(entries: seq<string>, hs: set<nat>)
    requires DirectoryOf(entries, hs) && forall h :: h in hs ==> h < TWO32
    ensures multiset(Listed(entries)) == multiset(hs)
  {
    forall h | h in hs ensures ScanHandle(KeyFileName(h)) == Some(h) {
      ScanInvertsName(h);
    }
    ListedAreScanned(entries, hs);
    assert ListsEach(Listed(entries), entries, hs, KeyFileName);
    forall h ensures h in Listed(entries) <==> h in hs {
    }
    forall h ensures multiset(Listed(entries))[h] == multiset(hs)[h] {
      ListedOnce(Listed(entries), h);
    }
  }

  /** The last entry adds the handle it is named after, or nothing. */
  lemma LastListed(entries: seq<string>, hs: set<nat>)
    requires |entries| > 0 && forall h :: h in hs ==> ScanHandle(KeyFileName(h)) == Some(h)
    requires var last := entries[|entries| - 1];
             ScanHandle(last).Some? ==> exists h :: h in hs && last == KeyFileName(h)
    ensures var front, last := entries[..|entries| - 1], entries[|entries| - 1];
            if ScanHandle(last).Some? then
              exists g :: g in hs && last == KeyFileName(g) && Listed(entries) == Listed(front) + [g]
            else Listed(entries) == Listed(front) && forall h :: h in hs ==> KeyFileName(h) != last
  {
    var last := entries[|entries| - 1];
    if ScanHandle(last).Some? {
      var g :| g in hs && last == KeyFileName(g);
      assert ScanHandle(KeyFileName(g)) == Some(g);
    } else {
      assert forall h :: h in hs ==> ScanHandle(KeyFileName(h)).Some?;
    }
  }

  /** `listed` has, each once, the members of `hs` whose names stand in `entries`. */
  ghost predicate ListsEach(listed: seq<nat>, entries: seq<string>, hs: set<nat>, name: nat -> string) {
    && (forall h :: h in listed <==> h in hs && name(h) in entries)
    && forall i, j :: 0 <= i < j < |listed| ==> listed[i] != listed[j]
  }

  // Quantified over a copy, so that the induction carries it along unopened.
  ghost predicate Lists(listed: seq<nat>, entries: seq<string>, hs: set<nat>, name: nat -> string) {
    forall l :: l == listed ==> ListsEach(l, entries, hs, name)
  }

  lemma ListsNoMore(listed: seq<nat>, entries: seq<string>, hs: set<nat>, name: nat -> string, last: string)
    requires Lists(listed, entries, hs, name) && forall h :: h in hs ==> name(h) != last
    ensures Lists(listed, entries + [last], hs, name)
  {
    assert ListsEach(listed, entries, hs, name);
  }

  lemma ListsOneMore(listed: seq<nat>, entries: seq<string>, hs: set<nat>, name: nat -> string, g: nat)
    requires Lists(listed, entries, hs, name) && g in hs && name(g) !in entries
    requires forall h :: h in hs && name(h) == name(g) ==> h == g
    ensures Lists(listed + [g], entries + [name(g)], hs, name)
  {
    assert ListsEach(listed, entries, hs, name);
  }

  lemma NamedAlone(hs: set<nat>, g: nat)
    ensures forall h :: h in hs && KeyFileName(h) == KeyFileName(g) ==> h == g
  {
    forall h | h in hs && KeyFileName(h) == KeyFileName(g) ensures h == g {
      NamesDistinct(h, g);
    }
  }

  lemma {:induction false} ListedAreScanned(entries: seq<string>, hs: set<nat>)
    requires forall i, j :: 0 <= i < j < |entries| ==> entries[i] != entries[j]
    requires forall h :: h in hs ==> ScanHandle(KeyFileName(h)) == Some(h)
    requires forall e :: e in entries && ScanHandle(e).Some? ==> exists h :: h in hs && e == KeyFileName(h)
    ensures Lists(Listed(entries), entries, hs, KeyFileName)
  {
    if |entries| != 0 {
      var front, last := entries[..|entries| - 1], entries[|entries| - 1];
      ListedAreScanned(front, hs);
      LastListed(entries, hs);
      assert entries == front + [last] && last !in front;
      if ScanHandle(last).Some? {
        var g :| g in hs && last == KeyFileName(g) && Listed(entries) == Listed(front) + [g];
        NamedAlone(hs, g);
        ListsOneMore(Listed(front), front, hs, KeyFileName, g);
      } else {
        ListsNoMore(Listed(front), front, hs, KeyFileName, last);
      }
    }
  }

  lemma {:induction false} ListedOnce(s: seq<nat>, h: nat)
    requires forall i, j :: 0 <= i < j < |s| ==> s[i] != s[j]
    ensures multiset(s)[h] == if h in s then 1 else 0
  {
    if |s| != 0 {
      var n := |s| - 1;
      ListedOnce(s[..n], h);
      assert s == s[..n] + [s[n]];
    }
  }
}

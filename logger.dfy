/**
 * The text-building parts of the tool's logger: size formatting, the two
 * timestamp layouts, the per-reason progress messages and the progress bar
 * line. Console colours, cursor handling and the log file are not modelled;
 * the clock is passed in as its date and time components.
 */
module Logger {
  import opened Wrappers
  import opened Numerics

  /** Why an entry is copied or removed; it picks the message prefix. */
  datatype Reason = CopyNotThere | CopyDifferentSize | CopyDifferentContent | Remove

  const UNIT: nat := 1024

  // ----- HumanReadableSize -----

  /**
   * A byte count as its two most significant base-1024 units, e.g. "3KiB&17B".
   * Integer division stands for the single-precision arithmetic of the source,
   * with which it agrees below 2^24 bytes.
   */
  function HumanReadableSize(size: nat): string {
    if size < UNIT then NatToString(size) + "B"
    else
      var kib := size / UNIT;
      var bytes := size % UNIT;
      if kib < UNIT then NatToString(kib) + "KiB&" + NatToString(bytes) + "B"
      else
        var mib := kib / UNIT;
        var kibRest := kib % UNIT;
        if mib < UNIT then NatToString(mib) + "MiB&" + NatToString(kibRest) + "KiB"
        else
          var gib := mib / UNIT;
          var mibRest := mib % UNIT;
          NatToString(gib) + "GiB&" + NatToString(mibRest) + "MiB"
  }

  lemma SizeInBytes(size: nat)
    requires size < 1024
    ensures HumanReadableSize(size) == NatToString(size) + "B"
  {
  }

  /** Every size from 1 KiB up to 1 MiB prints as its exact KiB count and byte remainder. */
  lemma SizeInKiB(size: nat, kib: nat, bytes: nat)
    requires 1 <= kib < 1024 && bytes < 1024
    requires size == kib * 1024 + bytes
    ensures HumanReadableSize(size) == NatToString(kib) + "KiB&" + NatToString(bytes) + "B"
  {
    DivModUnique(size, kib, bytes);
    KiBBranch(size, kib, bytes);
  }

  lemma KiBBranch(size: nat, kib: nat, bytes: nat)
    requires 1024 <= size && size / 1024 == kib && size % 1024 == bytes && kib < 1024
    ensures HumanReadableSize(size) == NatToString(kib) + "KiB&" + NatToString(bytes) + "B"
  {
  }

  /** From 1 MiB up to 1 GiB: the MiB count and the KiB remainder; the bytes below 1 KiB are dropped. */
  lemma SizeInMiB(size: nat, mib: nat, kib: nat, bytes: nat)
    requires 1 <= mib < 1024 && kib < 1024 && bytes < 1024
    requires size == mib * 0x10_0000 + kib * 1024 + bytes
    ensures HumanReadableSize(size) == NatToString(mib) + "MiB&" + NatToString(kib) + "KiB"
  {
    MiBSplit(mib, kib, bytes);
    MiBBranch(size, mib * 1024 + kib, mib, kib);
  }

  lemma MiBSplit(mib: nat, kib: nat, bytes: nat)
    requires 1 <= mib < 1024 && kib < 1024 && bytes < 1024
    ensures var size, k := mib * 0x10_0000 + kib * 1024 + bytes, mib * 1024 + kib;
      1024 <= size && size / 1024 == k && 1024 <= k && k / 1024 == mib && k % 1024 == kib
  {
    var size := mib * 0x10_0000 + kib * 1024 + bytes;
    var k := mib * 1024 + kib;
    assert mib * 0x10_0000 == (mib * 1024) * 1024;
    assert size == k * 1024 + bytes;
    DivModUnique(size, k, bytes);
    DivModUnique(k, mib, kib);
  }

  lemma MiBBranch(size: nat, k: nat, mib: nat, kib: nat)
    requires 1024 <= size && size / 1024 == k && 1024 <= k && k / 1024 == mib && k % 1024 == kib && mib < 1024
    ensures HumanReadableSize(size) == NatToString(mib) + "MiB&" + NatToString(kib) + "KiB"
  {
  }

  lemma GiBBranch(size: nat, k: nat, m: nat, gib: nat, mib: nat)
    requires 1024 <= size && size / 1024 == k && 1024 <= k && k / 1024 == m && 1024 <= m && m / 1024 == gib && m % 1024 == mib
    ensures HumanReadableSize(size) == NatToString(gib) + "GiB&" + NatToString(mib) + "MiB"
  {
  }

  /** From 1 GiB up: the GiB count and the MiB remainder; everything below 1 MiB is dropped. */
  lemma SizeInGiB(size: nat, gib: nat, mib: nat, rest: nat)
    requires 1 <= gib && mib < 1024 && rest < 0x10_0000
    requires size == gib * 0x4000_0000 + mib * 0x10_0000 + rest
    ensures HumanReadableSize(size) == NatToString(gib) + "GiB&" + NatToString(mib) + "MiB"
  {
    var m := gib * 1024 + mib;
    var k := m * 1024 + rest / 1024;
    GiBSplit(gib, mib, rest);
    GiBBranch(size, k, m, gib, mib);
  }

  lemma GiBSplit(gib: nat, mib: nat, rest: nat)
    requires 1 <= gib && mib < 1024 && rest < 0x10_0000
    ensures var size := gib * 0x4000_0000 + mib * 0x10_0000 + rest;
      var m := gib * 1024 + mib;
      var k := m * 1024 + rest / 1024;
      1024 <= size && size / 1024 == k && 1024 <= k && k / 1024 == m && 1024 <= m && m / 1024 == gib && m % 1024 == mib
  {
    var size := gib * 0x4000_0000 + mib * 0x10_0000 + rest;
    var m := gib * 1024 + mib;
    var k := m * 1024 + rest / 1024;
    assert gib * 0x4000_0000 == ((gib * 1024) * 1024) * 1024;
    assert mib * 0x10_0000 == (mib * 1024) * 1024;
    assert rest == (rest / 1024) * 1024 + rest % 1024;
    assert size == k * 1024 + rest % 1024;
    DivModUnique(size, k, rest % 1024);
    DivModUnique(k, m, rest / 1024);
    DivModUnique(m, gib, mib);
  }

  lemma DivModUnique(n: nat, q: nat, r: nat)
    requires r < 1024 && n == q * 1024 + r
    ensures n / 1024 == q && n % 1024 == r
  {
  }

  // ----- timestamps -----

  /** A two-digit field: one leading "0" below 10. */
  function Pad2(v: nat): string {
    (if v < 10 then "0" else "") + NatToString(v)
  }

  /** The millisecond field: "00" below 10, "0" from 10 to 99. */
  function Pad3(v: nat): string {
    (if v < 100 then (if v < 10 then "00" else "0") else "") + NatToString(v)
  }

  lemma Pad2Digits(v: nat)
    requires v < 100
    ensures Pad2(v) == [DigitChar(v / 10), DigitChar(v % 10)]
  {
    if v < 10 { OneDigit(v); } else { TwoDigits(v); }
  }

  lemma Pad3Digits(v: nat)
    requires v < 1000
    ensures Pad3(v) == [DigitChar(v / 100), DigitChar(v / 10 % 10), DigitChar(v % 10)]
  {
    if v < 10 { OneDigit(v); } else if v < 100 { TwoDigits(v); } else { ThreeDigits(v); }
  }

  /** A field printed by Pad2 reads back as its value and starts with '0' exactly below 10. */
  lemma Pad2Field(v: nat)
    requires v < 100
    ensures |Pad2(v)| == 2 && AllDigits(Pad2(v)) && DigitsValue(Pad2(v)) == v
    ensures Pad2(v)[0] == '0' <==> v < 10
  {
    Pad2Digits(v);
    ValueOfTwo(v / 10, v % 10);
  }

  /** A field printed by Pad3 reads back as its value; it starts with "00" below 10 and with a single '0' from 10 to 99. */
  lemma Pad3Field(v: nat)
    requires v < 1000
    ensures |Pad3(v)| == 3 && AllDigits(Pad3(v)) && DigitsValue(Pad3(v)) == v
    ensures Pad3(v)[..2] == "00" <==> v < 10
    ensures (Pad3(v)[0] == '0' && Pad3(v)[1] != '0') <==> 10 <= v < 100
  {
    Pad3Digits(v);
    ValueOfThree(v / 100, v / 10 % 10, v % 10);
    assert Pad3(v)[..2] == [DigitChar(v / 100), DigitChar(v / 10 % 10)];
  }

  /** The console timestamp "[hh:mm:ss.mmm] " of the given wall-clock time. */
  function TimeString(hour: nat, minute: nat, second: nat, millisecond: nat): string {
    "[" + Pad2(hour) + ":" + Pad2(minute) + ":" + Pad2(second) + "." + Pad3(millisecond) + "] "
  }

  /** The log-file timestamp "YYYY-MM-DD_hh.mm.ss.mmm"; the year is not padded. */
  function LongTimeString(year: nat, month: nat, day: nat, hour: nat, minute: nat, second: nat, millisecond: nat): string {
    NatToString(year) + "-" + Pad2(month) + "-" + Pad2(day) + "_" + Pad2(hour) + "." +
    Pad2(minute) + "." + Pad2(second) + "." + Pad3(millisecond)
  }

  /** The digits between two positions of a string, read as a number. */
  predicate FieldIs(s: string, from: nat, to: nat, v: nat)
    requires from <= to <= |s|
  {
    AllDigits(s[from..to]) && DigitsValue(s[from..to]) == v
  }

  /** TimeString has 15 characters, fixed separators, and each field reads back as its component. */
  lemma TimeStringLayout(hour: nat, minute: nat, second: nat, millisecond: nat)
    requires hour < 100 && minute < 100 && second < 100 && millisecond < 1000
    ensures var t := TimeString(hour, minute, second, millisecond);
      && |t| == 15
      && t[0] == '[' && t[3] == ':' && t[6] == ':' && t[9] == '.' && t[13] == ']' && t[14] == ' '
      && FieldIs(t, 1, 3, hour) && FieldIs(t, 4, 6, minute) && FieldIs(t, 7, 9, second)
      && FieldIs(t, 10, 13, millisecond)
  {
    Pad2Field(hour); Pad2Field(minute); Pad2Field(second); Pad3Field(millisecond);
    TimeSlices(Pad2(hour), Pad2(minute), Pad2(second), Pad3(millisecond));
  }

  /** Where each field of a console timestamp sits, for fields of widths 2, 2, 2 and 3. */
  lemma TimeSlices(h: string, m: string, s: string, ms: string)
    requires |h| == 2 && |m| == 2 && |s| == 2 && |ms| == 3
    ensures var t := "[" + h + ":" + m + ":" + s + "." + ms + "] ";
      && |t| == 15
      && t[0] == '[' && t[3] == ':' && t[6] == ':' && t[9] == '.' && t[13] == ']' && t[14] == ' '
      && t[1..3] == h && t[4..6] == m && t[7..9] == s && t[10..13] == ms
  {
    var t := "[" + h + ":" + m + ":" + s + "." + ms + "] ";
    assert t == ['[', h[0], h[1], ':', m[0], m[1], ':', s[0], s[1], '.', ms[0], ms[1], ms[2], ']', ' '];
  }

  /** With a four-digit year, LongTimeString has 23 characters in the layout YYYY-MM-DD_hh.mm.ss.mmm. */
  lemma LongTimeStringLayout(year: nat, month: nat, day: nat, hour: nat, minute: nat, second: nat, millisecond: nat)
    requires 1000 <= year < 10000
    requires month < 100 && day < 100 && hour < 100 && minute < 100 && second < 100 && millisecond < 1000
    ensures var t := LongTimeString(year, month, day, hour, minute, second, millisecond);
      && |t| == 23
      && t[4] == '-' && t[7] == '-' && t[10] == '_' && t[13] == '.' && t[16] == '.' && t[19] == '.'
      && FieldIs(t, 0, 4, year) && FieldIs(t, 5, 7, month) && FieldIs(t, 8, 10, day)
      && FieldIs(t, 11, 13, hour) && FieldIs(t, 14, 16, minute) && FieldIs(t, 17, 19, second)
      && FieldIs(t, 20, 23, millisecond)
  {
    FourDigits(year);
    ValueOfFour(year / 1000, year / 100 % 10, year / 10 % 10, year % 10);
    Pad2Field(month); Pad2Field(day); Pad2Field(hour); Pad2Field(minute); Pad2Field(second);
    Pad3Field(millisecond);
    LongTimeSlices(NatToString(year), Pad2(month), Pad2(day), Pad2(hour), Pad2(minute), Pad2(second), Pad3(millisecond));
  }

  /** Where each field of a long timestamp sits, for fields of widths 4, 2, 2, 2, 2, 2 and 3. */
  lemma LongTimeSlices(y: string, mo: string, d: string, h: string, mi: string, s: string, ms: string)
    requires |y| == 4 && |mo| == 2 && |d| == 2 && |h| == 2 && |mi| == 2 && |s| == 2 && |ms| == 3
    ensures var t := y + "-" + mo + "-" + d + "_" + h + "." + mi + "." + s + "." + ms;
      && |t| == 23
      && t[4] == '-' && t[7] == '-' && t[10] == '_' && t[13] == '.' && t[16] == '.' && t[19] == '.'
      && t[0..4] == y && t[5..7] == mo && t[8..10] == d && t[11..13] == h && t[14..16] == mi
      && t[17..19] == s && t[20..23] == ms
  {
    var date := y + "-" + mo + "-" + d;
    var time := "_" + h + "." + mi + "." + s + "." + ms;
    assert date == [y[0], y[1], y[2], y[3], '-', mo[0], mo[1], '-', d[0], d[1]];
    assert time == ['_', h[0], h[1], '.', mi[0], mi[1], '.', s[0], s[1], '.', ms[0], ms[1], ms[2]];
    var t := y + "-" + mo + "-" + d + "_" + h + "." + mi + "." + s + "." + ms;
    assert t == date + time;
  }

  // ----- reason messages -----

  function InfoPrefix(reason: Reason): string {
    match reason
    case CopyNotThere => "Copying because not there: "
    case CopyDifferentSize => "Copying because different size: "
    case CopyDifferentContent => "Copying because different content: "
    case Remove => "Removing: "
  }

  function SuccessPrefix(reason: Reason): string {
    match reason
    case CopyNotThere => "Copied because not there: "
    case CopyDifferentSize => "Copied because different size: "
    case CopyDifferentContent => "Copied because different content: "
    case Remove => "Removed: "
  }

  /** The parenthesised note: the size of a file, or "folder" when there is no size. */
  function SizeNote(size: Option<nat>): string {
    match size
    case Some(n) => HumanReadableSize(n)
    case None => "folder"
  }

  /** What follows the prefix: the file, then its size or "folder" in parentheses. */
  function Detail(file: string, size: Option<nat>): string {
    file + " (" + SizeNote(size) + ")"
  }

  /** The message InfoReason logs before an entry is copied or removed. */
  function InfoReason(reason: Reason, file: string, size: Option<nat>): string {
    InfoPrefix(reason) + Detail(file, size)
  }

  /** The message SuccessReason logs once an entry has been copied or removed. */
  function SuccessReason(reason: Reason, file: string, size: Option<nat>): string {
    SuccessPrefix(reason) + Detail(file, size)
  }

  /** Two strings that differ at a position inside both prefixes differ whatever follows. */
  lemma PrefixesClash(p: string, q: string, x: string, y: string, k: nat)
    requires k < |p| && k < |q| && p[k] != q[k]
    ensures p + x != q + y
  {
    assert (p + x)[k] == p[k];
    assert (q + y)[k] == q[k];
  }

  /** No message prefix is an initial part of another one, so a message names its reason unambiguously. */
  lemma InfoPrefixesClash(r1: Reason, r2: Reason, x: string, y: string)
    requires r1 != r2
    ensures InfoPrefix(r1) + x != InfoPrefix(r2) + y
  {
    var p, q := InfoPrefix(r1), InfoPrefix(r2);
    if r1 == Remove || r2 == Remove { PrefixesClash(p, q, x, y, 0); }
    else if r1 == CopyNotThere || r2 == CopyNotThere { PrefixesClash(p, q, x, y, 16); }
    else { PrefixesClash(p, q, x, y, 26); }
  }

  lemma SuccessPrefixesClash(r1: Reason, r2: Reason, x: string, y: string)
    requires r1 != r2
    ensures SuccessPrefix(r1) + x != SuccessPrefix(r2) + y
  {
    var p, q := SuccessPrefix(r1), SuccessPrefix(r2);
    if r1 == Remove || r2 == Remove { PrefixesClash(p, q, x, y, 0); }
    else if r1 == CopyNotThere || r2 == CopyNotThere { PrefixesClash(p, q, x, y, 15); }
    else { PrefixesClash(p, q, x, y, 25); }
  }

  /** InfoReason's message determines the reason, and for a given file and reason, whether it is a folder. */
  lemma InfoReasonDistinguishes(r1: Reason, f1: string, s1: Option<nat>, r2: Reason, f2: string, s2: Option<nat>)
    requires InfoReason(r1, f1, s1) == InfoReason(r2, f2, s2)
    ensures r1 == r2
    ensures f1 == f2 ==> (s1.None? <==> s2.None?)
  {
    if r1 != r2 {
      InfoPrefixesClash(r1, r2, Detail(f1, s1), Detail(f2, s2));
    } else if f1 == f2 && s1.None? != s2.None? {
      DetailDiffers(InfoPrefix(r1), f1, if s1.Some? then s1 else s2);
    }
  }

  /** SuccessReason's message determines the reason the same way. */
  lemma SuccessReasonDistinguishes(r1: Reason, f1: string, s1: Option<nat>, r2: Reason, f2: string, s2: Option<nat>)
    requires SuccessReason(r1, f1, s1) == SuccessReason(r2, f2, s2)
    ensures r1 == r2
    ensures f1 == f2 ==> (s1.None? <==> s2.None?)
  {
    if r1 != r2 {
      SuccessPrefixesClash(r1, r2, Detail(f1, s1), Detail(f2, s2));
    } else if f1 == f2 && s1.None? != s2.None? {
      DetailDiffers(SuccessPrefix(r1), f1, if s1.Some? then s1 else s2);
    }
  }

  /** Every size text starts with a digit. */
  lemma SizeTextStartsWithDigit(size: nat)
    ensures |HumanReadableSize(size)| > 0 && IsDigit(HumanReadableSize(size)[0])
  {
    var h := HumanReadableSize(size);
    var lead := if size < 1024 then size
      else if size / 1024 < 1024 then size / 1024
      else if size / 1024 / 1024 < 1024 then size / 1024 / 1024
      else size / 1024 / 1024 / 1024;
    var n := NatToString(lead);
    assert h == n + h[|n|..];
    assert h[0] == n[0];
  }

  /** A size is never printed as "folder", so a file's detail differs from a folder's. */
  lemma DetailDiffers(prefix: string, file: string, size: Option<nat>)
    requires size.Some?
    ensures prefix + Detail(file, size) != prefix + Detail(file, None)
  {
    SizeTextStartsWithDigit(size.value);
    var h := HumanReadableSize(size.value);
    var head := prefix + file + " (";
    assert prefix + Detail(file, size) == head + h + ")";
    assert prefix + Detail(file, None) == head + "folder" + ")";
    PrefixesClash(head + h, head + "folder", ")", ")", |head|);
  }

  /** A present-tense prefix never starts like a past-tense one: "Copyi"/"Copie", "Removi"/"Remove", or a different first letter. */
  lemma TensesClash(r1: Reason, r2: Reason, x: string, y: string)
    ensures InfoPrefix(r1) + x != SuccessPrefix(r2) + y
  {
    var p, q := InfoPrefix(r1), SuccessPrefix(r2);
    if (r1 == Remove) != (r2 == Remove) { PrefixesClash(p, q, x, y, 0); }
    else if r1 == Remove { PrefixesClash(p, q, x, y, 5); }
    else { PrefixesClash(p, q, x, y, 4); }
  }

  /** The announcement and the confirmation of an entry are never the same text. */
  lemma InfoNeverSuccess(r1: Reason, f1: string, s1: Option<nat>, r2: Reason, f2: string, s2: Option<nat>)
    ensures InfoReason(r1, f1, s1) != SuccessReason(r2, f2, s2)
  {
    TensesClash(r1, r2, Detail(f1, s1), Detail(f2, s2));
  }

  // ----- progress bar -----

  const BAR_FULL: char := '\U{2588}'
  const BAR_EMPTY: char := ' '

  /** n copies of a cell. */
  function Cells(c: char, n: nat): (s: string)
    ensures |s| == n && forall k :: 0 <= k < n ==> s[k] == c
  {
    seq(n, _ => c)
  }

  function Max0(x: int): nat {
    if x < 0 then 0 else x
  }

  lemma CellsSnoc(c: char, n: nat)
    ensures Cells(c, n) + [c] == Cells(c, n + 1)
  {
  }

  /** What the bar line shows after the cells: percentage, sizes and item counts. */
  function BarTail(percent: int, currentSize: nat, totalSize: nat, currentElements: int, totalElements: int): string {
    "] " + IntToString(percent) + "% (" + HumanReadableSize(currentSize) + "/" + HumanReadableSize(totalSize) +
    ") (" + IntToString(currentElements) + "/" + IntToString(totalElements) + ")"
  }

  /**
   * The progress line for an already computed percentage: "[", one full cell
   * per percent, one empty cell for each remaining percent up to 100, then
   * the tail. The percentage is an Int16 whose loop counter must not
   * overflow, hence the upper bound.
   */
  method ProgressBar(percent: int, currentSize: nat, totalSize: nat, currentElements: int, totalElements: int)
    returns (line: string)
    requires INT16_MIN <= percent < INT16_MAX
    ensures line == "[" + Cells(BAR_FULL, Max0(percent)) + Cells(BAR_EMPTY, Max0(100 - percent)) +
      BarTail(percent, currentSize, totalSize, currentElements, totalElements)
  {
    var bar := "[";
    var i := 1;
    while i <= percent
      invariant 1 <= i <= Max0(percent) + 1
      invariant bar == "[" + Cells(BAR_FULL, i - 1)
    {
      CellsSnoc(BAR_FULL, i - 1);
      bar := bar + [BAR_FULL];
      i := i + 1;
    }
    assert i - 1 == Max0(percent);
    var full := bar;
    bar := "";
    i := percent + 1;
    while i <= 100
      invariant percent + 1 <= i <= Max0(100 - percent) + percent + 1
      invariant bar == Cells(BAR_EMPTY, i - percent - 1)
    {
      CellsSnoc(BAR_EMPTY, i - percent - 1);
      bar := bar + [BAR_EMPTY];
      i := i + 1;
    }
    assert i - percent - 1 == Max0(100 - percent);
    line := full + bar + BarTail(percent, currentSize, totalSize, currentElements, totalElements);
  }

  /** For a percentage from 0 to 100 the bar between "[" and "] " has exactly 100 cells, the first p of them full. */
  lemma {:induction false} ProgressBarCells(percent: int)
    requires 0 <= percent <= 100
    ensures var cells := Cells(BAR_FULL, Max0(percent)) + Cells(BAR_EMPTY, Max0(100 - percent));
      |cells| == 100 &&
      (forall k :: 0 <= k < 100 ==> (cells[k] == BAR_FULL <==> k < percent))
  {
    var cells := Cells(BAR_FULL, Max0(percent)) + Cells(BAR_EMPTY, Max0(100 - percent));
    forall k | 0 <= k < 100 ensures cells[k] == BAR_FULL <==> k < percent {
      if k < percent { assert cells[k] == Cells(BAR_FULL, Max0(percent))[k]; }
      else { assert cells[k] == Cells(BAR_EMPTY, Max0(100 - percent))[k - percent]; }
    }
  }
}

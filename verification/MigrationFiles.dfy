/** Reading the embedded migration files: which names count, what version each
    carries, and the order they run in. */
module MigrationFiles {
  import opened Wrappers
  import opened Text

  const UP_SUFFIX := ".up.sql"

  datatype Migration = Migration(version: string, name: string)

  predicate HasSuffix(s: string, suffix: string) {
    |suffix| <= |s| && s[|s| - |suffix|..] == suffix
  }

  function TrimSuffix(s: string, suffix: string): string {
    if HasSuffix(s, suffix) then s[..|s| - |suffix|] else s
  }

  /** `strings.Cut` at the first underscore. */
  function Cut(s: string): Option<(string, string)> {
    if s == "" then None
    else if s[0] == '_' then Some(("", s[1..]))
    else match Cut(s[1..])
      case None => None
      case Some((before, after)) => Some(([s[0]] + before, after))
  }

  function Parse(file: string): Option<Migration> {
    if !HasSuffix(file, UP_SUFFIX) then None
    else match Cut(file)
      case None => None
      case Some((version, rest)) => Some(Migration(version, TrimSuffix(rest, UP_SUFFIX)))
  }

  function FileName(m: Migration): string {
    m.version + "_" + m.name + UP_SUFFIX
  }

  lemma {:induction false} CutMeaning(s: string)
    ensures Cut(s).None? <==> '_' !in s
    ensures Cut(s).Some? ==> s == Cut(s).value.0 + "_" + Cut(s).value.1 && '_' !in Cut(s).value.0
  {
    if s != "" {
      CutMeaning(s[1..]);
      assert s == [s[0]] + s[1..];
    }
  }

  lemma {:induction false} CutJoined(before: string, after: string)
    requires '_' !in before
    ensures Cut(before + "_" + after) == Some((before, after))
  {
    var s := before + "_" + after;
    if before == "" {
      assert s[1..] == after;
    } else {
      CutJoined(before[1..], after);
      assert s[0] == before[0] && s[1..] == before[1..] + "_" + after;
      assert before == [before[0]] + before[1..];
    }
  }

  /** A file counts as a migration exactly when it is named
      `<version>_<name>.up.sql` with no underscore in the version. */
  lemma ParseMeaning(file: string, m: Migration)
    ensures Parse(file) == Some(m) <==> file == FileName(m) && '_' !in m.version
  {
    if file == FileName(m) && '_' !in m.version {
      assert file == m.version + "_" + (m.name + UP_SUFFIX);
      assert file[|file| - |UP_SUFFIX|..] == UP_SUFFIX;
      CutJoined(m.version, m.name + UP_SUFFIX);
      assert (m.name + UP_SUFFIX)[|m.name|..] == UP_SUFFIX;
    }
    if Parse(file) == Some(m) {
      CutMeaning(file);
      var rest := Cut(file).value.1;
      SuffixAfterCut(file, m.version, rest);
      assert rest == m.name + UP_SUFFIX;
      assert file == m.version + "_" + rest;
    }
  }

  /** The suffix has no underscore, so it lies wholly after the cut. */
  lemma SuffixAfterCut(file: string, version: string, rest: string)
    requires file == version + "_" + rest && HasSuffix(file, UP_SUFFIX)
    ensures HasSuffix(rest, UP_SUFFIX)
  {
    var (from, tail) := (|file| - |UP_SUFFIX|, file[|file| - |UP_SUFFIX|..]);
    assert forall i :: 0 <= i < |UP_SUFFIX| ==> UP_SUFFIX[i] != '_';
    assert forall i :: from <= i < |file| ==> file[i] == tail[i - from];
    assert file[|version|] == '_';
  }

  // ----- Order -----

  /** Go's string order. */
  predicate Less(a: string, b: string) {
    b != "" && (a == "" || a[0] < b[0] || (a[0] == b[0] && Less(a[1..], b[1..])))
  }

  lemma {:induction false} LessTrichotomy(a: string, b: string)
    ensures !(Less(a, b) && Less(b, a))
    ensures a == b <==> !Less(a, b) && !Less(b, a)
  {
    if a != "" && b != "" {
      LessTrichotomy(a[1..], b[1..]);
      assert a == [a[0]] + a[1..] && b == [b[0]] + b[1..];
    }
  }

  lemma {:induction false} NotLessTransitive(a: string, b: string, c: string)
    requires !Less(b, a) && !Less(c, b)
    ensures !Less(c, a)
  {
    if a != "" && b != "" && c != "" && a[0] == b[0] == c[0] {
      NotLessTransitive(a[1..], b[1..], c[1..]);
    }
  }

  predicate Digits(s: string) {
    forall i :: 0 <= i < |s| ==> '0' <= s[i] <= '9'
  }

  function DigitOf(c: char): nat
    requires '0' <= c <= '9'
  {
    c as int - '0' as int
  }

  lemma {:induction false} ValueFromFront(s: string)
    requires s != "" && Digits(s)
    ensures ValueOf(s) == DigitOf(s[0]) * Pow10(|s| - 1) + ValueOf(s[1..])
    ensures ValueOf(s[1..]) < Pow10(|s| - 1)
  {
    if |s| == 1 {
      assert s[..0] == "" && s[1..] == "";
      assert ValueOf(s) == DigitOf(s[0]);
    } else {
      var init := s[..|s| - 1];
      ValueFromFront(init);
      assert s[1..][..|s[1..]| - 1] == init[1..];
      assert Pow10(|s| - 1) == 10 * Pow10(|s| - 2);
      FrontShift(DigitOf(s[0]), Pow10(|s| - 2));
    }
  }

  lemma FrontShift(d: nat, p: nat)
    ensures 10 * (d * p) == d * (10 * p)
  {
  }

  lemma LeadDigitDecides(d: nat, e: nat, p: nat, x: nat, y: nat)
    requires d < e && x < p
    ensures d * p + x < e * p + y
  {
    assert e * p >= (d + 1) * p == d * p + p;
  }

  /** Versions padded to one width run in numeric order. */
  lemma {:induction false} EqualWidthOrderIsNumeric(a: string, b: string)
    requires Digits(a) && Digits(b) && |a| == |b|
    ensures Less(a, b) <==> ValueOf(a) < ValueOf(b)
  {
    if a != "" {
      EqualWidthOrderIsNumeric(a[1..], b[1..]);
      ValueFromFront(a);
      ValueFromFront(b);
      var (d, e, p) := (DigitOf(a[0]), DigitOf(b[0]), Pow10(|a| - 1));
      if d < e {
        LeadDigitDecides(d, e, p, ValueOf(a[1..]), ValueOf(b[1..]));
      } else if e < d {
        LeadDigitDecides(e, d, p, ValueOf(b[1..]), ValueOf(a[1..]));
      }
    }
  }

  // ----- When string order is numeric order -----

  predicate ComparesAsNumbers(a: string, b: string) {
    (Less(a, b) <==> ValueOf(a) < ValueOf(b)) && (Less(b, a) <==> ValueOf(b) < ValueOf(a))
  }

  /** Strings of these two widths compare as the numbers they spell. */
  ghost predicate OrderIsNumeric(m: nat, n: nat) {
    forall a, b :: Digits(a) && Digits(b) && |a| == m && |b| == n ==> ComparesAsNumbers(a, b)
  }

  function Nines(m: nat): string {
    seq(m, _ => '9')
  }

  /** Ten to the `n - 1`, in `n` digits. */
  function PowerOfTen(n: nat): string
    requires n >= 1
  {
    "1" + Zeros(n - 1)
  }

  lemma ValueBelow(s: string)
    requires Digits(s)
    ensures ValueOf(s) < Pow10(|s|)
  {
    ValueFromFront("0" + s);
    assert ("0" + s)[1..] == s;
  }

  lemma {:induction false} Pow10Grows(m: nat, n: nat)
    requires m <= n
    ensures Pow10(m) <= Pow10(n)
  {
    if m < n {
      Pow10Grows(m, n - 1);
    }
  }

  /** For any two widths some pair runs in the wrong order: all nines, and the
      next power of ten that is wide enough. */
  lemma UnequalWidthsInvert(m: nat, n: nat)
    requires 1 <= m < n
    ensures Digits(Nines(m)) && Digits(PowerOfTen(n)) && |Nines(m)| == m && |PowerOfTen(n)| == n
    ensures Less(PowerOfTen(n), Nines(m)) && ValueOf(Nines(m)) < ValueOf(PowerOfTen(n))
  {
    var (a, b) := (Nines(m), PowerOfTen(n));
    var zeros := Zeros(n - 1);
    assert |zeros| == n - 1 && forall i :: 0 <= i < n - 1 ==> zeros[i] == '0';
    ValueBelow(a);
    ValueFromFront(b);
    Pow10Grows(m, n - 1);
  }

  /** The empty string, the only one of width zero, sorts before zero itself. */
  lemma EmptyBeforeZero(n: nat)
    requires n >= 1
    ensures Digits("") && Digits(Zeros(n)) && |Zeros(n)| == n && !ComparesAsNumbers("", Zeros(n))
  {
    LeadingZeros(n, "");
    assert Zeros(n) + "" == Zeros(n);
  }

  lemma NarrowAgainstWide(m: nat, n: nat)
    requires m < n
    ensures !OrderIsNumeric(m, n) && !OrderIsNumeric(n, m)
  {
    if m == 0 {
      EmptyBeforeZero(n);
      assert !ComparesAsNumbers(Zeros(n), "");
    } else {
      UnequalWidthsInvert(m, n);
      assert !ComparesAsNumbers(Nines(m), PowerOfTen(n)) && !ComparesAsNumbers(PowerOfTen(n), Nines(m));
    }
  }

  /** String order is numeric order exactly for equal widths. */
  lemma WidthsDecideOrder(m: nat, n: nat)
    ensures OrderIsNumeric(m, n) <==> m == n
  {
    if m < n {
      NarrowAgainstWide(m, n);
    } else if n < m {
      NarrowAgainstWide(n, m);
    } else {
      forall a, b | Digits(a) && Digits(b) && |a| == m && |b| == n ensures ComparesAsNumbers(a, b) {
        EqualWidthOrderIsNumeric(a, b);
        EqualWidthOrderIsNumeric(b, a);
      }
    }
  }

  /** The shortest instance: without the padding version 10 runs before version 9. */
  lemma TenBeforeNine()
    ensures Less("10", "9") && ValueOf("9") < ValueOf("10")
  {
    UnequalWidthsInvert(1, 2);
    assert Nines(1) == "9" && PowerOfTen(2) == "10";
  }

  // ----- The order the files run in -----

  ghost predicate Ordered(ms: seq<Migration>) {
    forall i, j :: 0 <= i < j < |ms| ==> !Less(ms[j].version, ms[i].version)
  }

  ghost predicate SortsTo(found: seq<Migration>, ms: seq<Migration>) {
    Ordered(ms) && multiset(ms) == multiset(found)
  }

  /** The migrations among the files, in the order the files are listed. */
  function Parsed(files: seq<string>): seq<Migration> {
    if files == [] then []
    else Parsed(files[..|files| - 1]) + (match Parse(files[|files| - 1]) case None => [] case Some(m) => [m])
  }

  /** Where `m` goes: behind every migration that is not later. */
  function Insert(ms: seq<Migration>, m: Migration): seq<Migration> {
    if ms != [] && Less(m.version, ms[|ms| - 1].version) then Insert(ms[..|ms| - 1], m) + [ms[|ms| - 1]] else ms + [m]
  }

  lemma {:induction false} InsertKeepsContents(ms: seq<Migration>, m: Migration)
    ensures multiset(Insert(ms, m)) == multiset(ms) + multiset{m}
    ensures forall x :: x in Insert(ms, m) <==> x in ms || x == m
  {
    if ms != [] && Less(m.version, ms[|ms| - 1].version) {
      InsertKeepsContents(ms[..|ms| - 1], m);
      assert ms == ms[..|ms| - 1] + [ms[|ms| - 1]];
    }
  }

  lemma {:induction false} InsertKeepsOrdered(ms: seq<Migration>, m: Migration)
    requires Ordered(ms)
    ensures Ordered(Insert(ms, m))
  {
    if ms != [] {
      var (init, last) := (ms[..|ms| - 1], ms[|ms| - 1]);
      if Less(m.version, last.version) {
        InsertKeepsOrdered(init, m);
        InsertKeepsContents(init, m);
        LessTrichotomy(m.version, last.version);
        LastGoesBehind(Insert(init, m), last);
      } else {
        forall i | 0 <= i < |ms| ensures !Less(m.version, ms[i].version) {
          if i < |ms| - 1 { NotLessTransitive(ms[i].version, last.version, m.version); }
        }
      }
    }
  }

  lemma LastGoesBehind(ms: seq<Migration>, last: Migration)
    requires Ordered(ms) && forall x :: x in ms ==> !Less(last.version, x.version)
    ensures Ordered(ms + [last])
  {
    var all := ms + [last];
    forall i, j | 0 <= i < j < |all| ensures !Less(all[j].version, all[i].version) {
      if j == |ms| { assert all[i] in ms; }
    }
  }

  /** The library sort need not be stable, so only order and contents are
      promised of it. */
  method SortByVersion(found: seq<Migration>) returns (migrations: seq<Migration>)
    ensures SortsTo(found, migrations)
  {
    hide Less, Insert;
    migrations := [];
    for i := 0 to |found|
      invariant Ordered(migrations)
      invariant multiset(migrations) == multiset(found[..i])
    {
      InsertKeepsContents(migrations, found[i]);
      InsertKeepsOrdered(migrations, found[i]);
      migrations := Insert(migrations, found[i]);
      assert found[..i + 1] == found[..i] + [found[i]];
    }
    assert found[..|found|] == found;
  }

  /** Reads the embedded directory. */
  method LoadMigrations(files: seq<string>) returns (migrations: seq<Migration>)
    ensures SortsTo(Parsed(files), migrations)
  {
    hide SortsTo;
    var found: seq<Migration> := [];
    for i := 0 to |files|
      invariant found == Parsed(files[..i])
    {
      assert files[..i + 1][..i] == files[..i];
      var name := files[i];
      if HasSuffix(name, UP_SUFFIX) {
        var cut := Cut(name);
        if cut.Some? {
          found := found + [Migration(cut.value.0, TrimSuffix(cut.value.1, UP_SUFFIX))];
        }
      }
    }
    assert files[..|files|] == files;
    migrations := SortByVersion(found);
  }

  ghost predicate DistinctVersions(ms: seq<Migration>) {
    forall i, j :: 0 <= i < j < |ms| ==> ms[i].version != ms[j].version
  }

  lemma FirstIsLeast(ms: seq<Migration>, m: Migration)
    requires Ordered(ms) && m in ms
    ensures !Less(m.version, ms[0].version)
  {
    var i :| 0 <= i < |ms| && ms[i] == m;
    if i == 0 { LessTrichotomy(m.version, m.version); }
  }

  lemma SmallestIsFirst(a: seq<Migration>, b: seq<Migration>)
    requires Ordered(a) && Ordered(b) && multiset(a) == multiset(b) && a != [] && DistinctVersions(a)
    ensures b != [] && a[0] == b[0]
  {
    assert |multiset(a)| == |a| && |multiset(b)| == |b|;
    assert a[0] in multiset(b) && b[0] in multiset(a);
    FirstIsLeast(a, b[0]);
    FirstIsLeast(b, a[0]);
    LessTrichotomy(a[0].version, b[0].version);
    var i :| 0 <= i < |a| && a[i] == b[0];
    assert a[i].version == a[0].version;
  }

  /** With distinct versions the order is settled: every replica, whatever its
      sort does, runs the same list. */
  lemma {:induction false} OrderIsDetermined(a: seq<Migration>, b: seq<Migration>)
    requires Ordered(a) && Ordered(b) && multiset(a) == multiset(b) && DistinctVersions(a)
    ensures a == b
  {
    hide Less;
    assert |multiset(a)| == |a| && |multiset(b)| == |b|;
    if a != [] {
      SmallestIsFirst(a, b);
      assert a == [a[0]] + a[1..] && b == [b[0]] + b[1..];
      assert multiset(a[1..]) == multiset(a) - multiset{a[0]};
      assert multiset(b[1..]) == multiset(b) - multiset{b[0]};
      OrderIsDetermined(a[1..], b[1..]);
    }
  }

  // ----- When the run is in numeric order -----

  /** All versions are digits, of the given widths. */
  ghost predicate HasWidths(ms: seq<Migration>, widths: seq<nat>) {
    && |ms| == |widths|
    && forall i :: 0 <= i < |ms| ==> Digits(ms[i].version) && |ms[i].version| == widths[i]
  }

  ghost predicate InNumericOrder(ms: seq<Migration>) {
    forall i, j :: 0 <= i < j < |ms| ==> ValueOf(ms[i].version) <= ValueOf(ms[j].version)
  }

  /** Whatever digits of these widths the files carry, and whatever the sort does
      with ties, the migrations run in numeric order. */
  ghost predicate AlwaysNumeric(widths: seq<nat>) {
    forall files, ms :: HasWidths(Parsed(files), widths) && SortsTo(Parsed(files), ms) ==> InNumericOrder(ms)
  }

  function FileNames(ms: seq<Migration>): seq<string> {
    seq(|ms|, i requires 0 <= i < |ms| => FileName(ms[i]))
  }

  /** Any list of versions without underscores can be read from some directory. */
  lemma {:induction false} ParsedNames(ms: seq<Migration>)
    requires forall i :: 0 <= i < |ms| ==> '_' !in ms[i].version
    ensures Parsed(FileNames(ms)) == ms
  {
    if ms != [] {
      var (init, last) := (ms[..|ms| - 1], ms[|ms| - 1]);
      ParsedNames(init);
      ParseMeaning(FileName(last), last);
      assert FileNames(ms)[..|ms| - 1] == FileNames(init);
      assert ms == init + [last];
    }
  }

  /** Apart from empty versions, which come first and count as zero. */
  ghost predicate OneWidth(widths: seq<nat>) {
    forall i, j :: 0 <= i < |widths| && 0 <= j < |widths| && widths[i] > 0 && widths[j] > 0 ==> widths[i] == widths[j]
  }

  lemma MemberWidth(found: seq<Migration>, ms: seq<Migration>, widths: seq<nat>, k: nat) returns (i: nat)
    requires HasWidths(found, widths) && multiset(ms) == multiset(found) && k < |ms|
    ensures i < |found| && found[i] == ms[k] && |ms[k].version| == widths[i] && Digits(ms[k].version)
  {
    assert ms[k] in multiset(found);
    i :| 0 <= i < |found| && found[i] == ms[k];
  }

  lemma OneWidthRunsNumerically(found: seq<Migration>, ms: seq<Migration>, widths: seq<nat>)
    requires OneWidth(widths) && HasWidths(found, widths) && SortsTo(found, ms)
    ensures InNumericOrder(ms)
  {
    forall i, j | 0 <= i < j < |ms| ensures ValueOf(ms[i].version) <= ValueOf(ms[j].version) {
      var (a, b) := (ms[i].version, ms[j].version);
      var x := MemberWidth(found, ms, widths, i);
      var y := MemberWidth(found, ms, widths, j);
      assert !Less(b, a);
      if |a| == |b| {
        EqualWidthOrderIsNumeric(b, a);
      }
    }
  }

  function Sorted(ms: seq<Migration>): seq<Migration> {
    if ms == [] then [] else Insert(Sorted(ms[..|ms| - 1]), ms[|ms| - 1])
  }

  lemma {:induction false} SortedSorts(ms: seq<Migration>)
    ensures SortsTo(ms, Sorted(ms))
  {
    if ms != [] {
      var init := ms[..|ms| - 1];
      SortedSorts(init);
      InsertKeepsContents(Sorted(init), ms[|ms| - 1]);
      InsertKeepsOrdered(Sorted(init), ms[|ms| - 1]);
      assert ms == init + [ms[|ms| - 1]];
    }
  }

  lemma SmallerIsEarlier(ms: seq<Migration>, j: nat, i: nat)
    requires Ordered(ms) && i < |ms| && j < |ms| && Less(ms[j].version, ms[i].version)
    ensures j < i
  {
    LessTrichotomy(ms[j].version, ms[i].version);
  }

  /** A list with one pair inverted does not come out in numeric order. */
  lemma InvertedPairShows(ms: seq<Migration>, x: Migration, y: Migration)
    requires Ordered(ms) && x in ms && y in ms
    requires Less(y.version, x.version) && ValueOf(x.version) < ValueOf(y.version)
    ensures !InNumericOrder(ms)
  {
    var i :| 0 <= i < |ms| && ms[i] == x;
    var j :| 0 <= j < |ms| && ms[j] == y;
    SmallerIsEarlier(ms, j, i);
  }

  function ZeroVersions(widths: seq<nat>): seq<Migration> {
    seq(|widths|, i requires 0 <= i < |widths| => Migration(Zeros(widths[i]), ""))
  }

  lemma MixedWidthsMisrun(widths: seq<nat>, i: nat, j: nat)
    requires i < |widths| && j < |widths| && 0 < widths[i] < widths[j]
    ensures !AlwaysNumeric(widths)
  {
    var (x, y) := (Migration(Nines(widths[i]), ""), Migration(PowerOfTen(widths[j]), ""));
    UnequalWidthsInvert(widths[i], widths[j]);
    var found := ZeroVersions(widths)[i := x][j := y];
    assert HasWidths(found, widths);
    SortedSorts(found);
    assert found[i] == x && found[j] == y;
    assert x in multiset(found) && y in multiset(found);
    assert x in multiset(Sorted(found)) && y in multiset(Sorted(found));
    InvertedPairShows(Sorted(found), x, y);
    ParsedNames(found);
    assert HasWidths(Parsed(FileNames(found)), widths) && SortsTo(Parsed(FileNames(found)), Sorted(found));
  }

  /** Migrations run in numeric order for every choice of digits exactly when
      all versions, empty ones aside, have the same width. */
  lemma WidthsDecideRunOrder(widths: seq<nat>)
    ensures AlwaysNumeric(widths) <==> OneWidth(widths)
  {
    if OneWidth(widths) {
      forall files, ms | HasWidths(Parsed(files), widths) && SortsTo(Parsed(files), ms)
        ensures InNumericOrder(ms)
      {
        OneWidthRunsNumerically(Parsed(files), ms, widths);
      }
    } else {
      var i, j :| 0 <= i < |widths| && 0 <= j < |widths| && widths[i] > 0 && widths[j] > 0 && widths[i] < widths[j];
      MixedWidthsMisrun(widths, i, j);
    }
  }
}

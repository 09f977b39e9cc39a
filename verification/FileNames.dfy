/**
 Names of backup files (rotateFile in pkg/pipeline/storage.go): the local time of their creation in fixed-width
 digits, so that the sorted directory listing is the order of creation.
 */
module FileNames {
  // A reading of the local calendar clock with a four-digit year.
  datatype Stamp = Stamp(year: nat, month: nat, day: nat, hour: nat, minute: nat, second: nat)

  predicate Valid(s: Stamp) {
    s.year <= 9999 && 1 <= s.month <= 12 && 1 <= s.day <= 31 && s.hour <= 23 && s.minute <= 59 && s.second <= 59
  }

  predicate Before(a: Stamp, b: Stamp) {
    || a.year < b.year
    || (a.year == b.year && a.month < b.month)
    || (a.year == b.year && a.month == b.month && a.day < b.day)
    || (a.year == b.year && a.month == b.month && a.day == b.day && a.hour < b.hour)
    || (a.year == b.year && a.month == b.month && a.day == b.day && a.hour == b.hour && a.minute < b.minute)
    || (a.year == b.year && a.month == b.month && a.day == b.day && a.hour == b.hour && a.minute == b.minute
        && a.second < b.second)
  }

  // The order of sort.Strings.
  predicate Less(a: string, b: string) {
    b != "" && (a == "" || a[0] < b[0] || (a[0] == b[0] && Less(a[1..], b[1..])))
  }

  function Digit(n: nat): char
    requires n <= 9
  {
    ['0', '1', '2', '3', '4', '5', '6', '7', '8', '9'][n]
  }

  function Two(n: nat): (s: string)
    requires n <= 99
    ensures |s| == 2
  {
    [Digit(n / 10), Digit(n % 10)]
  }

  function Four(n: nat): (s: string)
    requires n <= 9999
    ensures |s| == 4
  {
    Two(n / 100) + Two(n % 100)
  }

  const PREFIX := "pipeline-"
  const SUFFIX := ".log"

  function FileName(dir: string, s: Stamp): string
    requires Valid(s)
  {
    var time := Two(s.hour) + (Two(s.minute) + (Two(s.second) + SUFFIX));
    dir + PREFIX + (Four(s.year) + (Two(s.month) + (Two(s.day) + ("-" + time))))
  }

  lemma {:induction false} LessOfParts(a: string, b: string, c: string, d: string)
    requires |a| == |b|
    ensures Less(a + c, b + d) <==> Less(a, b) || (a == b && Less(c, d))
    decreases |a|
  {
    if a == "" {
      assert a + c == c && b + d == d;
    } else {
      assert (a + c)[1..] == a[1..] + c && (b + d)[1..] == b[1..] + d;
      LessOfParts(a[1..], b[1..], c, d);
      assert a == [a[0]] + a[1..] && b == [b[0]] + b[1..];
    }
  }

  lemma DigitOrder(m: nat, n: nat)
    requires m <= 9 && n <= 9
    ensures Digit(m) < Digit(n) <==> m < n
    ensures Digit(m) == Digit(n) <==> m == n
  {}

  lemma TwoOrder(m: nat, n: nat)
    requires m <= 99 && n <= 99
    ensures Less(Two(m), Two(n)) <==> m < n
    ensures Two(m) == Two(n) <==> m == n
  {
    DigitOrder(m / 10, n / 10);
    DigitOrder(m % 10, n % 10);
    assert Two(m)[1..] == [Digit(m % 10)] && Two(n)[1..] == [Digit(n % 10)];
    assert Less([Digit(m % 10)], [Digit(n % 10)]) <==> Digit(m % 10) < Digit(n % 10);
  }

  lemma FourOrder(m: nat, n: nat)
    requires m <= 9999 && n <= 9999
    ensures Less(Four(m), Four(n)) <==> m < n
    ensures Four(m) == Four(n) <==> m == n
  {
    TwoOrder(m / 100, n / 100);
    TwoOrder(m % 100, n % 100);
    LessOfParts(Two(m / 100), Two(n / 100), Two(m % 100), Two(n % 100));
    assert Four(m)[..2] == Two(m / 100) && Four(n)[..2] == Two(n / 100) && Four(m)[2..] == Two(m % 100)
           && Four(n)[2..] == Two(n % 100);
  }

  lemma {:induction false} LessIrreflexive(a: string)
    ensures !Less(a, a)
  {
    if a != "" { LessIrreflexive(a[1..]); }
  }

  // For any two creation times the names compare as the times do.
  lemma NameOrderIsTimeOrder(dir: string, a: Stamp, b: Stamp)
    requires Valid(a) && Valid(b)
    ensures Less(FileName(dir, a), FileName(dir, b)) <==> Before(a, b)
  {
    var a6, b6 := Two(a.second) + SUFFIX, Two(b.second) + SUFFIX;
    var a5, b5 := Two(a.minute) + a6, Two(b.minute) + b6;
    var a4, b4 := Two(a.hour) + a5, Two(b.hour) + b5;
    var a3, b3 := Two(a.day) + ("-" + a4), Two(b.day) + ("-" + b4);
    var a2, b2 := Two(a.month) + a3, Two(b.month) + b3;
    LessIrreflexive(SUFFIX); LessIrreflexive("-"); LessIrreflexive(dir + PREFIX);
    LessOfParts(dir + PREFIX, dir + PREFIX, Four(a.year) + a2, Four(b.year) + b2);
    FourOrder(a.year, b.year); LessOfParts(Four(a.year), Four(b.year), a2, b2);
    TwoOrder(a.month, b.month); LessOfParts(Two(a.month), Two(b.month), a3, b3);
    TwoOrder(a.day, b.day); LessOfParts(Two(a.day), Two(b.day), "-" + a4, "-" + b4);
    LessOfParts("-", "-", a4, b4);
    TwoOrder(a.hour, b.hour); LessOfParts(Two(a.hour), Two(b.hour), a5, b5);
    TwoOrder(a.minute, b.minute); LessOfParts(Two(a.minute), Two(b.minute), a6, b6);
    TwoOrder(a.second, b.second); LessOfParts(Two(a.second), Two(b.second), SUFFIX, SUFFIX);
  }

  // ---------- Directory listings ----------

  ghost predicate Sorted(files: seq<string>) {
    forall i, j :: 0 <= i < j < |files| ==> Less(files[i], files[j])
  }

  // The listing of a directory: every file once, in the order of sort.Strings.
  ghost predicate IsListing(files: seq<string>, dir: set<string>) {
    Sorted(files) && forall f :: f in files <==> f in dir
  }

  lemma {:induction false} LessAsymmetric(a: string, b: string)
    requires Less(a, b)
    ensures a != b && !Less(b, a)
  {
    if a != "" && a[0] == b[0] { LessAsymmetric(a[1..], b[1..]); }
  }

  // There is only one listing.
  lemma {:induction false} ListingUnique(files: seq<string>, files': seq<string>, dir: set<string>)
    requires IsListing(files, dir) && IsListing(files', dir)
    ensures files == files'
    decreases |files|
  {
    if files == [] {
      assert forall k :: 0 <= k < |files'| ==> files'[k] in files';
    } else {
      assert files[0] in files;
      assert files' != [];
      FirstOfListing(files, files', dir);
      RestOfListing(files, dir);
      RestOfListing(files', dir);
      ListingUnique(files[1..], files'[1..], dir - {files[0]});
      assert files == [files[0]] + files[1..] && files' == [files'[0]] + files'[1..];
    }
  }

  lemma FirstOfListing(files: seq<string>, files': seq<string>, dir: set<string>)
    requires IsListing(files, dir) && IsListing(files', dir) && files != [] && files' != []
    ensures files[0] == files'[0]
  {
    assert files[0] in files && files'[0] in files';
    var i :| 0 <= i < |files'| && files'[i] == files[0];
    var j :| 0 <= j < |files| && files[j] == files'[0];
    if files[0] != files'[0] {
      assert Less(files'[0], files'[i]) && Less(files[0], files[j]);
      LessAsymmetric(files[0], files'[0]);
    }
  }

  lemma RestOfListing(files: seq<string>, dir: set<string>)
    requires IsListing(files, dir) && files != []
    ensures IsListing(files[1..], dir - {files[0]})
  {
    forall f | f in files[1..] ensures f in dir && f != files[0] {
      var i :| 0 <= i < |files[1..]| && files[1..][i] == f;
      LessAsymmetric(files[0], files[i + 1]);
    }
    forall f | f in dir - {files[0]} ensures f in files[1..] {
      var i :| 0 <= i < |files| && files[i] == f;
      assert files[1..][i - 1] == f;
    }
  }

  // A file created later than all others goes to the end of the listing.
  lemma ListingGrows(files: seq<string>, dir: set<string>, name: string)
    requires IsListing(files, dir) && forall f :: f in dir ==> Less(f, name)
    ensures IsListing(files + [name], dir + {name})
  {
    forall i, j | 0 <= i < j < |files + [name]| ensures Less((files + [name])[i], (files + [name])[j]) {
      if j == |files| { assert files[i] in files; }
    }
  }
}

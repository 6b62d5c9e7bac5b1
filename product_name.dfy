/** Reading a Sentinel-2 SAFE product name and naming the files derived from
    it (detect_sargassum.py lines 37-42 and the three output names at lines
    118-123, 140-145 and 166-171).  A product directory is named like
    S2A_MSIL2A_20190706T160839_N0212_R140_T16QEJ_20190706T201807.SAFE: the
    satellite sits at characters 1-2, the sensing time at 11-25 and the tile
    at 39-43. */
module ProductName {
  import opened Common

  datatype DateTime = DateTime(year: nat, month: nat, day: nat, hour: nat, minute: nat, second: nat)

  predicate IsLeapYear(y: nat) {
    (y % 4 == 0 && y % 100 != 0) || y % 400 == 0
  }

  function DaysInMonth(y: nat, m: nat): nat
    requires 1 <= m <= 12
  {
    if m == 2 then (if IsLeapYear(y) then 29 else 28)
    else if m == 4 || m == 6 || m == 9 || m == 11 then 30
    else 31
  }

  /** The instants Python's datetime accepts (years 1 to 9999, no leap seconds). */
  predicate ValidDateTime(d: DateTime) {
    && 1 <= d.year <= 9999
    && 1 <= d.month <= 12
    && 1 <= d.day <= DaysInMonth(d.year, d.month)
    && d.hour < 24 && d.minute < 60 && d.second < 60
  }

  predicate IsDigit(c: char) {
    '0' <= c <= '9'
  }

  predicate AllDigits(s: string) {
    forall i :: 0 <= i < |s| ==> IsDigit(s[i])
  }

  /** The decimal value of a string of digits. */
  function Number(s: string): nat
    requires AllDigits(s)
    decreases |s|
  {
    if |s| == 0 then 0 else 10 * Number(s[..|s| - 1]) + (s[|s| - 1] as int - '0' as int)
  }

  function Pow10(n: nat): nat {
    if n == 0 then 1 else 10 * Pow10(n - 1)
  }

  /** n written in decimal with exactly width digits, zero-padded on the left. */
  function Pad(n: nat, width: nat): (s: string)
    ensures |s| == width && AllDigits(s)
  {
    if width == 0 then [] else Pad(n / 10, width - 1) + [('0' as int + n % 10) as char]
  }

  /** Padding is the inverse of reading a number, for numbers that fit the width. */
  lemma {:induction false} NumberOfPad(n: nat, width: nat)
    requires n < Pow10(width)
    ensures Number(Pad(n, width)) == n
  {
    if width > 0 {
      NumberOfPad(n / 10, width - 1);
      var s := Pad(n, width);
      assert s[..width - 1] == Pad(n / 10, width - 1);
    }
  }

  /** Reading a digit string and padding it back to its length gives the string. */
  lemma {:induction false} PadOfNumber(s: string)
    requires AllDigits(s)
    ensures Number(s) < Pow10(|s|) && Pad(Number(s), |s|) == s
    decreases |s|
  {
    if |s| > 0 {
      var init := s[..|s| - 1];
      PadOfNumber(init);
      assert Number(s) / 10 == Number(init);
      assert s == init + [s[|s| - 1]];
    }
  }

  /** datetime.strptime(s, "%Y%m%dT%H%M%S") on the fixed-width layout of a
      SAFE name: four year digits, two digits each for month and day, 'T',
      two digits each for hours, minutes and seconds, naming a real instant. */
  function ParseSensingTime(s: string): (r: Result<DateTime>)
    ensures r.Success? ==> |s| == 15 && ValidDateTime(r.value)
    ensures r.Failure? ==> r.error == DateFormatError
  {
    if || |s| != 15 || s[8] != 'T'
       || !AllDigits(s[0..4]) || !AllDigits(s[4..6]) || !AllDigits(s[6..8])
       || !AllDigits(s[9..11]) || !AllDigits(s[11..13]) || !AllDigits(s[13..15])
    then Failure(DateFormatError)
    else
      var d := DateTime(Number(s[0..4]), Number(s[4..6]), Number(s[6..8]),
                        Number(s[9..11]), Number(s[11..13]), Number(s[13..15]));
      if ValidDateTime(d) then Success(d) else Failure(DateFormatError)
  }

  /** date.strftime("%Y%m%d"), the date part used in output file names. */
  function FormatDate(d: DateTime): string {
    Pad(d.year, 4) + Pad(d.month, 2) + Pad(d.day, 2)
  }

  /** The "%Y%m%dT%H%M%S" rendering that ParseSensingTime reads. */
  function FormatSensingTime(d: DateTime): string {
    FormatDate(d) + "T" + FormatClock(d)
  }

  /** "%H%M%S". */
  function FormatClock(d: DateTime): string {
    Pad(d.hour, 2) + Pad(d.minute, 2) + Pad(d.second, 2)
  }

  /** Every valid instant is read back from its rendering. */
  lemma ParseFormat(d: DateTime)
    requires ValidDateTime(d)
    ensures ParseSensingTime(FormatSensingTime(d)) == Success(d)
  {
    var s := FormatSensingTime(d);
    assert s[0..4] == Pad(d.year, 4);
    assert s[4..6] == Pad(d.month, 2);
    assert s[6..8] == Pad(d.day, 2);
    assert s[8] == 'T';
    assert s[9..11] == Pad(d.hour, 2);
    assert s[11..13] == Pad(d.minute, 2);
    assert s[13..15] == Pad(d.second, 2);
    assert Pow10(2) == 100 && Pow10(4) == 10000 by {
      assert Pow10(1) == 10;
      assert Pow10(3) == 1000;
    }
    NumberOfPad(d.year, 4);
    NumberOfPad(d.month, 2);
    NumberOfPad(d.day, 2);
    NumberOfPad(d.hour, 2);
    NumberOfPad(d.minute, 2);
    NumberOfPad(d.second, 2);
  }

  /** Every accepted string is the rendering of the instant read from it, so
      the date in an output name is the first eight characters of the field. */
  lemma FormatParse(s: string)
    requires ParseSensingTime(s).Success?
    ensures FormatSensingTime(ParseSensingTime(s).value) == s
    ensures FormatDate(ParseSensingTime(s).value) == s[0..8]
  {
    var d := ParseSensingTime(s).value;
    FormatDateParse(s, d);
    FormatClockParse(s, d);
    assert s == s[0..8] + [s[8]] + s[9..15];
  }

  /** The fields of an accepted string and the numbers read from them. */
  lemma ParsedFields(s: string, d: DateTime)
    requires ParseSensingTime(s) == Success(d)
    ensures |s| == 15 && s[8] == 'T'
    ensures AllDigits(s[0..4]) && AllDigits(s[4..6]) && AllDigits(s[6..8])
    ensures AllDigits(s[9..11]) && AllDigits(s[11..13]) && AllDigits(s[13..15])
    ensures d.year == Number(s[0..4]) && d.month == Number(s[4..6]) && d.day == Number(s[6..8])
    ensures d.hour == Number(s[9..11]) && d.minute == Number(s[11..13]) && d.second == Number(s[13..15])
  {
  }

  lemma FormatDateParse(s: string, d: DateTime)
    requires ParseSensingTime(s) == Success(d)
    ensures FormatDate(d) == s[0..8]
  {
    ParsedFields(s, d);
    PadOfNumber(s[0..4]);
    PadOfNumber(s[4..6]);
    PadOfNumber(s[6..8]);
    assert s[0..8] == s[0..4] + s[4..6] + s[6..8];
  }

  lemma FormatClockParse(s: string, d: DateTime)
    requires ParseSensingTime(s) == Success(d)
    ensures FormatClock(d) == s[9..15]
  {
    ParsedFields(s, d);
    PadOfNumber(s[9..11]);
    PadOfNumber(s[11..13]);
    PadOfNumber(s[13..15]);
    assert s[9..15] == s[9..11] + s[11..13] + s[13..15];
  }

  /** What detect_sargassum reads from a product name. */
  datatype Product = Product(tile: string, sensing: DateTime, satellite: string)

  /** The tile (characters 39-43), the sensing time (11-25, which must parse)
      and the satellite (1-2).  Slices of a short name are clamped, as in
      Python, so only the sensing time can make this fail. */
  function ParseProduct(basename: string): (r: Result<Product>)
    ensures r.Success? <==> ParseSensingTime(Slice(basename, 11, 26)).Success?
    ensures r.Success? ==> |basename| >= 26 && |r.value.tile| <= 5 && |r.value.satellite| == 2
    ensures r.Success? && |basename| >= 44 ==> r.value.tile == basename[39..44]
  {
    match ParseSensingTime(Slice(basename, 11, 26))
    case Failure(e) => Failure(e)
    case Success(d) => Success(Product(Slice(basename, 39, 44), d, Slice(basename, 1, 3)))
  }

  /** path.split("/"): the pieces between the slashes, in order; a path with
      k slashes has k + 1 of them. */
  function Segments(p: string): (segs: seq<string>)
    ensures |segs| > 0 && forall k :: 0 <= k < |segs| ==> '/' !in segs[k]
    decreases |p|
  {
    if |p| == 0 then [""]
    else if p[|p| - 1] == '/' then Segments(p[..|p| - 1]) + [""]
    else
      var segs := Segments(p[..|p| - 1]);
      segs[..|segs| - 1] + [segs[|segs| - 1] + [p[|p| - 1]]]
  }

  /** One component of normpath's loop: "" and "." are skipped; ".." drops
      the previous name, except that it is kept at the start of a relative
      path or after another "..", and dropped at the start of an absolute
      path; any other name is kept. */
  function NormStep(absolute: bool, kept: seq<string>, c: string): seq<string> {
    if c == "" || c == "." then kept
    else if c != ".." || (!absolute && kept == []) || (kept != [] && kept[|kept| - 1] == "..") then kept + [c]
    else if kept != [] then kept[..|kept| - 1]
    else kept
  }

  /** The components normpath keeps, none of them empty, "." or holding a
      slash. */
  function NormComponents(absolute: bool, segs: seq<string>): (kept: seq<string>)
    requires forall k :: 0 <= k < |segs| ==> '/' !in segs[k]
    ensures forall k :: 0 <= k < |kept| ==> '/' !in kept[k] && kept[k] != "" && kept[k] != "."
    decreases |segs|
  {
    if segs == [] then []
    else NormStep(absolute, NormComponents(absolute, segs[..|segs| - 1]), segs[|segs| - 1])
  }

  /** os.path.basename(os.path.normpath(path)): the last component normpath
      keeps; with none left, the root's empty name for an absolute path and
      "." for a relative one (the empty path included). */
  function BaseName(path: string): (r: string)
    ensures '/' !in r
  {
    var absolute := |path| > 0 && path[0] == '/';
    var kept := NormComponents(absolute, Segments(path));
    if kept != [] then kept[|kept| - 1]
    else if absolute then ""
    else "."
  }

  lemma {:induction false} SegmentsOfJoin(dir: string, name: string)
    requires '/' !in name
    ensures Segments(dir + "/" + name) == Segments(dir) + [name]
    decreases |name|
  {
    var p := dir + "/" + name;
    if |name| > 0 {
      var init := name[..|name| - 1];
      assert p[..|p| - 1] == dir + "/" + init;
      assert p[|p| - 1] == name[|name| - 1] && name[|name| - 1] != '/';
      SegmentsOfJoin(dir, init);
      assert name == init + [name[|name| - 1]];
    } else {
      assert p[..|p| - 1] == dir;
    }
  }

  /** Appending a component takes one more step of the loop. */
  lemma NormComponentsAppend(absolute: bool, segs: seq<string>, c: string)
    requires forall k :: 0 <= k < |segs| ==> '/' !in segs[k]
    requires '/' !in c
    ensures NormComponents(absolute, segs + [c]) == NormStep(absolute, NormComponents(absolute, segs), c)
  {
    assert (segs + [c])[..|segs|] == segs;
  }

  /** A slash then an ordinary name: the name is the base name. */
  function IsName(name: string): bool {
    |name| > 0 && '/' !in name && name != "." && name != ".."
  }

  /** The product directory's own name is recovered from its path, with or
      without a trailing slash. */
  lemma BaseNameOfProductPath(dir: string, name: string)
    requires IsName(name)
    ensures BaseName(dir + "/" + name) == name
    ensures BaseName(dir + "/" + name + "/") == name
  {
    var p := dir + "/" + name;
    var absolute := |p| > 0 && p[0] == '/';
    SegmentsOfJoin(dir, name);
    NormComponentsAppend(absolute, Segments(dir), name);
    SegmentsOfJoin(p, "");
    assert p + "/" == p + "/" + "";
    NormComponentsAppend(absolute, Segments(p), "");
    assert (p + "/")[0] == p[0];
  }

  /** A trailing "/." names the same directory. */
  lemma BaseNameSkipsDot(path: string)
    requires path != ""
    ensures BaseName(path + "/.") == BaseName(path)
  {
    var absolute := path[0] == '/';
    var q := path + "/.";
    assert q == path + "/" + ".";
    SegmentsOfJoin(path, ".");
    NormComponentsAppend(absolute, Segments(path), ".");
    var kept := NormComponents(absolute, Segments(path));
    assert NormStep(absolute, kept, ".") == kept;
    assert q[0] == path[0];
    assert NormComponents(absolute, Segments(q)) == kept;
  }

  /** An ordinary name followed by ".." is undone. */
  lemma NormComponentsParent(absolute: bool, segs: seq<string>, name: string)
    requires forall k :: 0 <= k < |segs| ==> '/' !in segs[k]
    requires IsName(name)
    ensures NormComponents(absolute, segs + [name, ".."]) == NormComponents(absolute, segs)
  {
    var kept := NormComponents(absolute, segs);
    NormComponentsAppend(absolute, segs, name);
    assert NormComponents(absolute, segs + [name]) == kept + [name];
    NormComponentsAppend(absolute, segs + [name], "..");
    assert segs + [name] + [".."] == segs + [name, ".."];
    assert (kept + [name])[..|kept|] == kept;
  }

  /** Two paths that start alike and keep the same components have the same
      base name. */
  lemma SameBaseName(p1: string, p2: string)
    requires p1 != "" && p2 != "" && p1[0] == p2[0]
    requires NormComponents(p1[0] == '/', Segments(p1)) == NormComponents(p2[0] == '/', Segments(p2))
    ensures BaseName(p1) == BaseName(p2)
  {
  }

  /** A trailing "/.." after an ordinary name leads back to the directory
      holding it. */
  lemma BaseNameOfParent(dir: string, name: string)
    requires dir != "" && IsName(name)
    ensures BaseName(dir + "/" + name + "/..") == BaseName(dir)
  {
    var p := dir + "/" + name;
    var q := p + "/..";
    var segs := Segments(dir);
    assert Segments(q) == segs + [name, ".."] by {
      SegmentsOfJoin(dir, name);
      SegmentsOfJoin(p, "..");
      assert q == p + "/" + "..";
    }
    assert q[0] == dir[0];
    NormComponentsParent(dir[0] == '/', segs, name);
    SameBaseName(q, dir);
  }

  /** os.path.join(dir, name). */
  function JoinPath(dir: string, name: string): (r: string)
    ensures |name| > 0 && name[0] != '/' && dir != "" ==> |r| > |dir| && r[..|dir|] == dir
    ensures |name| > 0 && name[0] != '/' ==> |r| >= |name| && r[|r| - |name|..] == name
  {
    if |name| > 0 && name[0] == '/' then name
    else if dir == "" then name
    else if dir[|dir| - 1] == '/' then dir + name
    else dir + "/" + name
  }

  /** "{tile}_{YYYYMMDD}_{index name with spaces as '_'}.{extension}". */
  function OutputFileName(p: Product, indexName: string, extension: string): (r: string)
    ensures |r| == |p.tile| + |indexName| + |extension| + 11
    ensures r[..|p.tile|] == p.tile && r[|p.tile| + 1..|p.tile| + 9] == FormatDate(p.sensing)
    ensures r[|r| - |extension|..] == extension
    ensures ' ' !in r[|p.tile| + 10..|r| - |extension| - 1]
  {
    p.tile + "_" + FormatDate(p.sensing) + "_" + ReplaceChar(indexName, ' ', '_') + "." + extension
  }

  /** Where a result is written: in outdir, or inside the product directory
      itself (dataset_path) when outdir is None. */
  function OutputPath(outdir: Option<string>, datasetPath: string, p: Product, indexName: string, extension: string): (r: string)
    ensures var fname := OutputFileName(p, indexName, extension);
            && |r| >= |fname| && r[|r| - |fname|..] == fname
            && (outdir.Some? && outdir.value != "" && (|p.tile| == 0 || p.tile[0] != '/') ==>
                  |r| > |outdir.value| && r[..|outdir.value|] == outdir.value)
            && (outdir.None? && datasetPath != "" && (|p.tile| == 0 || p.tile[0] != '/') ==>
                  |r| > |datasetPath| && r[..|datasetPath|] == datasetPath)
  {
    var fname := OutputFileName(p, indexName, extension);
    assert |fname| > 0 && (|p.tile| == 0 || p.tile[0] != '/') ==> fname[0] != '/';
    JoinPath(if outdir.Some? then outdir.value else datasetPath, fname)
  }

  /** S2A_MSIL2A_20190706T160839_N0212_R140_T16QEJ_20190706T201807.SAFE, in its fields. */
  const ExampleName := "S2A_MSIL2A_" + "20190706T160839" + "_N0212_R140_T" + "16QEJ" + "_20190706T201807.SAFE"

  lemma ExampleYearPad()
    ensures Pad(2019, 4) == "2019"
  {
  }

  lemma ExampleDayPads()
    ensures Pad(7, 2) == "07" && Pad(6, 2) == "06"
  {
  }

  lemma ExampleClockPads()
    ensures Pad(16, 2) == "16" && Pad(8, 2) == "08" && Pad(39, 2) == "39"
  {
  }

  lemma ExampleRendering()
    ensures FormatDate(DateTime(2019, 7, 6, 16, 8, 39)) == "20190706"
    ensures FormatSensingTime(DateTime(2019, 7, 6, 16, 8, 39)) == "20190706T160839"
  {
    var d := DateTime(2019, 7, 6, 16, 8, 39);
    ExampleYearPad();
    ExampleDayPads();
    ExampleClockPads();
    assert FormatDate(d) == "2019" + "07" + "06";
    assert FormatClock(d) == "16" + "08" + "39";
  }

  lemma ExampleFields()
    ensures Slice(ExampleName, 11, 26) == "20190706T160839"
    ensures Slice(ExampleName, 39, 44) == "16QEJ"
    ensures Slice(ExampleName, 1, 3) == "2A"
  {
  }

  /** An index name without spaces appears in the file name as it is:
      "{tile}_{YYYYMMDD}_{index}.{extension}". */
  lemma FileNameOf(p: Product, indexName: string, extension: string)
    requires ' ' !in indexName
    ensures OutputFileName(p, indexName, extension)
            == p.tile + "_" + FormatDate(p.sensing) + "_" + indexName + "." + extension
  {
    ReplaceAbsent(indexName, ' ', '_');
  }

  /** Replacing a character that does not occur changes nothing. */
  lemma ReplaceAbsent(s: string, from: char, to: char)
    requires from !in s
    ensures ReplaceChar(s, from, to) == s
  {
  }

  /** Outputs of the same product and index in two formats never share a path. */
  lemma OutputExtensionsDiffer(outdir: Option<string>, datasetPath: string, p: Product, indexName: string, e1: string, e2: string)
    requires |e1| == |e2| && e1 != e2
    ensures OutputPath(outdir, datasetPath, p, indexName, e1) != OutputPath(outdir, datasetPath, p, indexName, e2)
  {
    var f1 := OutputFileName(p, indexName, e1);
    var f2 := OutputFileName(p, indexName, e2);
    var r1 := OutputPath(outdir, datasetPath, p, indexName, e1);
    var r2 := OutputPath(outdir, datasetPath, p, indexName, e2);
    assert f1[|f1| - |e1|..] == e1;
    assert f2[|f2| - |e2|..] == e2;
  }

  /** The worked product name from the repository's own examples. */
  lemma ExampleProduct()
    ensures ParseProduct(ExampleName) == Success(Product("16QEJ", DateTime(2019, 7, 6, 16, 8, 39), "2A"))
    ensures FormatDate(DateTime(2019, 7, 6, 16, 8, 39)) == "20190706"
  {
    ExampleFields();
    ExampleRendering();
    ParseFormat(DateTime(2019, 7, 6, 16, 8, 39));
  }
}

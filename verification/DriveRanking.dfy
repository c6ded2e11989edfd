/** act_toggle_mount: which disk of an lsblk listing the console mounts. */
module DriveRanking {
  import opened Files
  import opened Sorting

  type Text = string

  // ---------------------------------------------------------------- splitting

  predicate IsSpace(c: char) {
    c in {' ', '\t', '\n', '\r'}
  }

  /** Python's `split()`: the longest runs of non-space characters; `word` is the run being read. */
  function WordsFrom(line: Text, word: Text): seq<Text> {
    if line == [] then (if word == [] then [] else [word])
    else if IsSpace(line[0]) then (if word == [] then [] else [word]) + WordsFrom(line[1..], [])
    else WordsFrom(line[1..], word + [line[0]])
  }

  function Words(line: Text): seq<Text> {
    WordsFrom(line, [])
  }

  predicate IsWord(s: Text) {
    s != [] && forall i :: 0 <= i < |s| ==> !IsSpace(s[i])
  }

  lemma {:induction false} WordThenRest(w: Text, rest: Text, word: Text)
    requires forall i :: 0 <= i < |w| ==> !IsSpace(w[i])
    ensures WordsFrom(w + rest, word) == WordsFrom(rest, word + w)
  {
    if w == [] {
      assert w + rest == rest && word + w == word;
    } else {
      assert (w + rest)[1..] == w[1..] + rest;
      WordThenRest(w[1..], rest, word + [w[0]]);
      assert word + [w[0]] + w[1..] == word + w;
    }
  }

  // ---------------------------------------------------------------- one row of the listing

  /** A row of `lsblk -nrbo NAME,SIZE,TYPE,RM,MOUNTPOINT,FSTYPE`; the last two may be empty. */
  datatype Row = Row(name: Text, bytes: nat, kind: Text, removable: bool, mountpoint: Text, fstype: Text)

  ghost predicate Printable(r: Row) {
    && IsWord(r.name) && IsWord(r.kind)
    && (r.mountpoint == [] || IsWord(r.mountpoint)) && (r.fstype == [] || IsWord(r.fstype))
  }

  function Digit(d: nat): (c: char)
    requires d < 10
    ensures '0' <= c <= '9' && c as int - '0' as int == d
  {
    ('0' as int + d) as char
  }

  /** Decimal notation. */
  function Digits(n: nat): Text {
    if n < 10 then [Digit(n)] else Digits(n / 10) + [Digit(n % 10)]
  }

  function Flag(removable: bool): Text {
    if removable then "1" else "0"
  }

  /** Raw output: columns joined by single spaces, empty columns included. */
  function Print(r: Row): Text {
    r.name + " " + Digits(r.bytes) + " " + r.kind + " " + Flag(r.removable) + " " + r.mountpoint + " " + r.fstype
  }

  function NonEmpty(s: Text): seq<Text> {
    if s == [] then [] else [s]
  }

  /** The words that are left once empty columns have collapsed. */
  function Collapsed(r: Row): seq<Text> {
    [r.name, Digits(r.bytes), r.kind, Flag(r.removable)] + NonEmpty(r.mountpoint) + NonEmpty(r.fstype)
  }

  lemma WordsJoin(w: Text, rest: Text)
    requires w == [] || IsWord(w)
    ensures Words(w + " " + rest) == NonEmpty(w) + Words(rest)
  {
    var tail := " " + rest;
    assert w + " " + rest == w + tail;
    WordThenRest(w, tail, []);
    assert [] + w == w;
    assert tail[1..] == rest;
  }

  lemma WordsLast(w: Text)
    requires w == [] || IsWord(w)
    ensures Words(w) == NonEmpty(w)
  {
    WordThenRest(w, [], []);
    assert w + [] == w && [] + w == w;
  }

  predicate IsDigits(s: Text) {
    s != [] && forall i :: 0 <= i < |s| ==> '0' <= s[i] <= '9'
  }

  function ToNat(s: Text): nat
    requires s == [] || IsDigits(s)
  {
    if s == [] then 0 else ToNat(s[..|s| - 1]) * 10 + (s[|s| - 1] as int - '0' as int)
  }

  lemma ToNatSnoc(s: Text, c: char)
    requires (s == [] || IsDigits(s)) && '0' <= c <= '9'
    ensures IsDigits(s + [c]) && IsWord(s + [c]) && ToNat(s + [c]) == ToNat(s) * 10 + (c as int - '0' as int)
  {
    assert (s + [c])[..|s|] == s;
  }

  /** Reading a printed number gives it back. */
  lemma {:induction false} DigitsRoundTrip(n: nat)
    ensures IsDigits(Digits(n)) && IsWord(Digits(n)) && ToNat(Digits(n)) == n
  {
    assert ToNat([]) == 0;
    hide ToNat, IsDigits, IsWord, Digit;
    if n < 10 {
      ToNatSnoc([], Digit(n));
      assert Digits(n) == [] + [Digit(n)];
    } else {
      DigitsRoundTrip(n / 10);
      ToNatSnoc(Digits(n / 10), Digit(n % 10));
    }
  }

  /** Splitting a printed row drops exactly the empty columns. */
  lemma WordsOfRow(r: Row)
    requires Printable(r)
    ensures Words(Print(r)) == Collapsed(r)
  {
    hide Digits, ToNat;
    var t5 := r.mountpoint + " " + r.fstype;
    var t4 := Flag(r.removable) + " " + t5;
    var t3 := r.kind + " " + t4;
    var t2 := Digits(r.bytes) + " " + t3;
    DigitsRoundTrip(r.bytes);
    assert Print(r) == r.name + " " + t2;
    WordsJoin(r.name, t2);
    WordsJoin(Digits(r.bytes), t3);
    WordsJoin(r.kind, t4);
    WordsJoin(Flag(r.removable), t5);
    WordsJoin(r.mountpoint, r.fstype);
    WordsLast(r.fstype);
    hide Words, NonEmpty, IsWord;
  }

  // ---------------------------------------------------------------- reading a row

  const KNOWN: set<Text> := {"ext4", "ext3", "ext2", "xfs", "btrfs", "ntfs", "vfat", "exfat", "fat32"}

  /** The mountpoint and fstype the console believes in. */
  function MountAndFs(parts: seq<Text>): (Text, Text) {
    if |parts| < 5 then ("", "")
    else if parts[4] in KNOWN then ("", parts[4])
    else (parts[4], if |parts| > 5 then parts[5] else "")
  }

  /** The file systems that the console can mount. */
  predicate MountableFs(s: Text) {
    || s == "ext4" || s == "ext3" || s == "ext2" || s == "xfs" || s == "btrfs"
    || s == "ntfs" || s == "vfat" || s == "exfat" || s == "fat32"
  }

  /** For a row that is not mounted the console sees no mountpoint if and only if the file system column is
      empty or one it knows; for a mounted row it sees one unless the mountpoint is named like a file system. */
  lemma SeenUnmountedIff(r: Row)
    requires Printable(r)
    ensures var seen := MountAndFs(Words(Print(r))).0;
            && (r.mountpoint == [] ==> (seen == [] <==> r.fstype == [] || MountableFs(r.fstype)))
            && (r.mountpoint != [] ==> (seen == [] <==> MountableFs(r.mountpoint)))
  {
    WordsOfRow(r);
    hide Words;
  }

  function Size(s: Text): nat {
    if IsDigits(s) then ToNat(s) else 0
  }

  predicate StartsWith(s: Text, prefix: Text) {
    prefix <= s
  }

  const GIGABYTE: nat := 1000000000

  function Priority(name: Text, removable: Text, fstype: Text, size: nat): nat {
    if StartsWith(name, "sdb") then 10
    else if removable == "1" then 5
    else if fstype != [] && size > GIGABYTE then 3
    else if size > GIGABYTE then 1
    else 0
  }

  datatype Drive = Drive(priority: nat, size: nat, name: Text)

  /** A whole disk other than sda that looks unmounted and has a priority. */
  predicate Eligible(line: Text) {
    var parts := Words(line);
    && |parts| >= 4 && parts[2] == "disk" && !StartsWith(parts[0], "sda")
    && MountAndFs(parts).0 == [] && DriveOf(line).priority > 0
  }

  function DriveOf(line: Text): Drive {
    var parts := Words(line);
    if |parts| < 4 then Drive(0, 0, "")
    else
      var size := Size(parts[1]);
      Drive(Priority(parts[0], parts[3], MountAndFs(parts).1, size), size, parts[0])
  }

  // ---------------------------------------------------------------- ranking

  /** Sorting with `reverse=True` by (priority, size): larger first, ties in listing order. */
  function Ranked(): (Drive, Drive) -> bool {
    (a: Drive, b: Drive) => a.priority > b.priority || (a.priority == b.priority && a.size >= b.size)
  }

  lemma RankedIsTotal()
    ensures TotalPreorder(Ranked())
  {
  }

  function Candidates(lines: seq<Text>): seq<Drive> {
    if lines == [] then []
    else
      var k := |lines| - 1;
      Candidates(lines[..k]) + if Eligible(lines[k]) then [DriveOf(lines[k])] else []
  }

  /** Line `i` is eligible, no eligible line ranks above it, and no earlier one ties with it. */
  ghost predicate Best(lines: seq<Text>, i: nat) {
    && i < |lines| && Eligible(lines[i])
    && (forall j :: 0 <= j < |lines| && Eligible(lines[j]) ==> Ranked()(DriveOf(lines[i]), DriveOf(lines[j])))
    && (forall j :: 0 <= j < i && Eligible(lines[j]) ==> !Ranked()(DriveOf(lines[j]), DriveOf(lines[i])))
  }

  /** `at` are the eligible lines, in order. */
  ghost predicate EligibleAt(lines: seq<Text>, at: seq<nat>) {
    && (forall x :: 0 <= x < |at| ==> at[x] < |lines| && Eligible(lines[at[x]]))
    && (forall x, y :: 0 <= x < y < |at| ==> at[x] < at[y])
    && (forall j :: 0 <= j < |lines| && Eligible(lines[j]) ==> j in at)
  }

  /** The candidates are the drives of those lines. */
  ghost predicate Sources(lines: seq<Text>, at: seq<nat>) {
    && EligibleAt(lines, at) && |at| == |Candidates(lines)|
    && forall x :: 0 <= x < |at| ==> Candidates(lines)[x] == DriveOf(lines[at[x]])
  }

  lemma EligibleSnoc(lines: seq<Text>, line: Text, at: seq<nat>)
    requires EligibleAt(lines, at)
    ensures EligibleAt(lines + [line], at + if Eligible(line) then [|lines|] else [])
  {
    hide Eligible;
    var all, at' := lines + [line], at + if Eligible(line) then [|lines|] else [];
    forall j | 0 <= j < |all| && Eligible(all[j]) ensures j in at' {
      if j < |lines| {
        assert j in at;
      } else {
        assert at'[|at|] == j;
      }
    }
  }

  lemma {:induction false} FindSources(lines: seq<Text>) returns (at: seq<nat>)
    ensures Sources(lines, at)
  {
    if lines == [] {
      at := [];
    } else {
      var k := |lines| - 1;
      var before := FindSources(lines[..k]);
      EligibleSnoc(lines[..k], lines[k], before);
      assert lines == lines[..k] + [lines[k]];
      at := before + if Eligible(lines[k]) then [k] else [];
      hide Eligible, DriveOf;
      assert EligibleAt(lines, at);
    }
  }

  lemma HeadIsBest(lines: seq<Text>) returns (i: nat)
    requires Candidates(lines) != []
    ensures Best(lines, i) && SortBy(Ranked(), Candidates(lines))[0] == DriveOf(lines[i])
  {
    var cs := Candidates(lines);
    var at := FindSources(lines);
    RankedIsTotal();
    var x := SortHead(Ranked(), cs);
    i := at[x];
    hide Candidates, Eligible, DriveOf;
    forall j | 0 <= j < |lines| && Eligible(lines[j]) ensures Ranked()(DriveOf(lines[i]), DriveOf(lines[j])) {
      var y :| 0 <= y < |at| && at[y] == j;
      assert Ranked()(cs[x], cs[y]);
    }
    forall j | 0 <= j < i && Eligible(lines[j]) ensures !Ranked()(DriveOf(lines[j]), DriveOf(lines[i])) {
      var y :| 0 <= y < |at| && at[y] == j;
      assert y < x;
      assert !Ranked()(cs[y], cs[x]);
    }
  }

  // ---------------------------------------------------------------- the same about rows

  /** A whole disk other than sda that is not mounted, whose file system the console can read off the row, and that is an
      sdb, removable or larger than a gigabyte. */
  predicate Mountable(r: Row) {
    && r.mountpoint == "" && (r.fstype == "" || MountableFs(r.fstype)) && r.kind == "disk" && !("sda" <= r.name)
    && ("sdb" <= r.name || r.removable || r.bytes > 1_000_000_000)
  }

  /** The first row is to be preferred: an sdb to any other disk, then a removable disk to a fixed one, then among fixed
      ones one with a file system to one without, and else the larger. */
  predicate Preferred(a: Row, b: Row) {
    if "sdb" <= a.name || "sdb" <= b.name then
      "sdb" <= a.name && ("sdb" <= b.name ==> a.bytes > b.bytes)
    else if a.removable || b.removable then
      a.removable && (b.removable ==> a.bytes > b.bytes)
    else if a.fstype == "" && b.fstype == "" then a.bytes > b.bytes
    else a.fstype != "" && (b.fstype != "" ==> a.bytes > b.bytes)
  }

  /** The drive that a row stands for. */
  function DriveOfRow(r: Row): Drive {
    Drive(Priority(r.name, Flag(r.removable), r.fstype, r.bytes), r.bytes, r.name)
  }

  lemma PreferredRanksAbove(a: Row, b: Row)
    requires Mountable(a) && Mountable(b)
    ensures Preferred(a, b) <==> !Ranked()(DriveOfRow(b), DriveOfRow(a))
  {
  }

  /** The lines are these rows, and no mount point is named like a file system. */
  ghost predicate Printed(rows: seq<Row>, lines: seq<Text>) {
    && |lines| == |rows|
    && forall i :: 0 <= i < |rows| ==> Printable(rows[i]) && !MountableFs(rows[i].mountpoint) && lines[i] == Print(rows[i])
  }

  lemma RowIsLine(r: Row)
    requires Printable(r) && !MountableFs(r.mountpoint)
    ensures Eligible(Print(r)) <==> Mountable(r)
    ensures Mountable(r) ==> DriveOf(Print(r)) == DriveOfRow(r)
  {
    hide Words, Digits, ToNat, Print;
    WordsOfRow(r);
    SeenUnmountedIff(r);
    DigitsRoundTrip(r.bytes);
    hide Printable, IsWord;
  }

  /** Row `i` is mountable, no mountable row is preferred to it, and it is preferred to every earlier one. */
  ghost predicate BestRow(rows: seq<Row>, i: nat) {
    && i < |rows| && Mountable(rows[i])
    && (forall j :: 0 <= j < |rows| && Mountable(rows[j]) ==> !Preferred(rows[j], rows[i]))
    && (forall j :: 0 <= j < i && Mountable(rows[j]) ==> Preferred(rows[i], rows[j]))
  }

  /** The choice is right for a table of disks: the device of the best mountable row, or none if there is none. */
  ghost predicate RightChoice(rows: seq<Row>, device: Option<Text>) {
    && (device.None? <==> forall i :: 0 <= i < |rows| ==> !Mountable(rows[i]))
    && (device.Some? ==> exists i: nat :: BestRow(rows, i) && device.value == rows[i].name)
  }

  lemma BestLineIsBestRow(rows: seq<Row>, lines: seq<Text>, i: nat)
    requires Printed(rows, lines) && Best(lines, i)
    ensures BestRow(rows, i) && DriveOf(lines[i]).name == rows[i].name
  {
    hide Eligible, Mountable, Preferred, DriveOf, Words, Print, Printable, Priority, Ranked;
    RowIsLine(rows[i]);
    forall j | 0 <= j < |rows| && Mountable(rows[j])
      ensures Eligible(lines[j])
      ensures Preferred(rows[j], rows[i]) <==> !Ranked()(DriveOf(lines[i]), DriveOf(lines[j]))
      ensures Preferred(rows[i], rows[j]) <==> !Ranked()(DriveOf(lines[j]), DriveOf(lines[i]))
    {
      RowIsLine(rows[j]);
      PreferredRanksAbove(rows[j], rows[i]);
      PreferredRanksAbove(rows[i], rows[j]);
    }
  }

  lemma ChoiceIsRight(rows: seq<Row>, lines: seq<Text>, device: Option<Text>)
    requires Printed(rows, lines)
    requires device.None? <==> forall i :: 0 <= i < |lines| ==> !Eligible(lines[i])
    requires device.Some? ==> exists i: nat :: Best(lines, i) && device.value == DriveOf(lines[i]).name
    ensures RightChoice(rows, device)
  {
    hide Eligible, Mountable, Words, Print, Printable;
    forall j | 0 <= j < |rows| ensures Eligible(lines[j]) <==> Mountable(rows[j]) {
      RowIsLine(rows[j]);
    }
    if device.Some? {
      hide BestRow;
      var i: nat :| Best(lines, i) && device.value == DriveOf(lines[i]).name;
      BestLineIsBestRow(rows, lines, i);
    }
  }

  /** The loop over the listing and the choice from the sorted candidates: the chosen device is that of the best
      line, and none is chosen exactly when no line is eligible. For every table of disks that prints as these lines,
      that is the best disk that is not mounted. */
  method ChooseDrive(lines: seq<Text>) returns (device: Option<Text>)
    ensures device.None? <==> forall i :: 0 <= i < |lines| ==> !Eligible(lines[i])
    ensures device.Some? ==> exists i: nat :: Best(lines, i) && device.value == DriveOf(lines[i]).name
    ensures forall rows :: Printed(rows, lines) ==> RightChoice(rows, device)
  {
    device := Choose(lines);
    forall rows | Printed(rows, lines) ensures RightChoice(rows, device) {
      ChoiceIsRight(rows, lines, device);
    }
  }

  method Choose(lines: seq<Text>) returns (device: Option<Text>)
    ensures device.None? <==> forall i :: 0 <= i < |lines| ==> !Eligible(lines[i])
    ensures device.Some? ==> exists i: nat :: Best(lines, i) && device.value == DriveOf(lines[i]).name
  {
    var candidates := [];
    for k := 0 to |lines|
      invariant candidates == Candidates(lines[..k])
      invariant candidates == [] <==> forall i :: 0 <= i < k ==> !Eligible(lines[i])
    {
      assert lines[..k + 1][..k] == lines[..k];
      var parts := Words(lines[k]);
      if |parts| < 4 {
        continue;
      }
      var size := Size(parts[1]);
      var (mountpoint, fstype) := MountAndFs(parts);
      if mountpoint != [] || StartsWith(parts[0], "sda") || parts[2] != "disk" {
        continue;
      }
      var priority := Priority(parts[0], parts[3], fstype, size);
      if priority > 0 {
        candidates := candidates + [Drive(priority, size, parts[0])];
      }
    }
    assert lines[..|lines|] == lines;
    if candidates == [] {
      return None;
    }
    var sorted := SortBy(Ranked(), candidates);
    ghost var i := HeadIsBest(lines);
    return Some(sorted[0].name);
  }
}

/** The directory both allocators work on: file names that carry numbers, the counter file, and the
    journal that only the migration allocator keeps. */
module NumberDirectory {
  import opened Common
  import opened Numbers
  import opened Allocator

  /** `NNN_description.sql` against `VT-N.md`. */
  datatype Naming = Migration | Ticket

  /** How many leading characters are digits. */
  function DigitRun(s: string): (k: nat)
    ensures k <= |s| && AllDigits(s[..k])
    ensures k < |s| ==> !IsDigit(s[k])
  {
    if s == [] || !IsDigit(s[0]) then 0
    else
      var k := DigitRun(s[1..]);
      assert forall i :: 0 < i <= k ==> s[i] == s[1..][i - 1];
      k + 1
  }

  predicate EndsWith(s: string, suffix: string) {
    |suffix| <= |s| && s[|s| - |suffix|..] == suffix
  }

  predicate OneLine(s: string) {
    forall i :: 0 <= i < |s| ==> s[i] != '\n'
  }

  /** The number a directory entry carries, if its name has the allocator's shape. */
  function NumberOf(naming: Naming, name: string): (r: Option<nat>) {
    match naming
    case Migration =>
      var k := DigitRun(name);
      if 0 < k && k + 5 <= |name| && name[k] == '_' && EndsWith(name, ".sql") && OneLine(name)
      then Some(Parse(name[..k])) else None
    case Ticket =>
      if "VT-" <= name && EndsWith(name, ".md") && |name| >= 6
         && 3 + DigitRun(name[3..]) == |name| - 3 && DigitRun(name[3..]) > 0
      then Some(Parse(name[3..][..DigitRun(name[3..])])) else None
  }

  /** The string handed to the caller. */
  function Label(naming: Naming, n: nat): string {
    match naming
    case Migration => Fmt(n)
    case Ticket => "VT-" + Decimal(n)
  }

  lemma {:induction false} DigitRunOf(d: string, rest: string)
    requires AllDigits(d) && (rest != [] ==> !IsDigit(rest[0]))
    ensures DigitRun(d + rest) == |d|
  {
    if d == [] {
      assert d + rest == rest;
    } else {
      DigitRunOf(d[1..], rest);
      assert (d + rest)[1..] == d[1..] + rest;
    }
  }

  /** The name is made of these digits in the frame that the naming prescribes. */
  ghost predicate FramedDigits(naming: Naming, name: string, d: string, rest: string) {
    d != "" && AllDigits(d) &&
    match naming
    case Migration => name == d + "_" + rest + ".sql" && forall c :: c in rest ==> c != '\n'
    case Ticket => rest == "" && name == "VT-" + d + ".md"
  }

  /** Exactly the names of the two patterns carry a number, namely that of their digits. */
  lemma NumberOfExactly(naming: Naming, name: string, n: nat)
    ensures NumberOf(naming, name) == Some(n) <==>
            exists d, rest :: FramedDigits(naming, name, d, rest) && Parse(d) == n
  {
    if NumberOf(naming, name) == Some(n) {
      var d, rest := FrameOf(naming, name);
      assert FramedDigits(naming, name, d, rest) && Parse(d) == n;
    }
    if d, rest :| FramedDigits(naming, name, d, rest) && Parse(d) == n {
      FramedIsRead(naming, name, d, rest);
    }
  }

  lemma FrameOf(naming: Naming, name: string) returns (d: string, rest: string)
    requires NumberOf(naming, name).Some?
    ensures FramedDigits(naming, name, d, rest) && NumberOf(naming, name) == Some(Parse(d))
  {
    match naming
    case Migration => d, rest := MigrationFrame(name);
    case Ticket =>
      d := TicketFrame(name);
      rest := "";
  }

  lemma MigrationFrame(name: string) returns (d: string, rest: string)
    requires NumberOf(Migration, name).Some?
    ensures d != "" && AllDigits(d) && OneLine(rest) && name == d + "_" + rest + ".sql"
    ensures NumberOf(Migration, name) == Some(Parse(d))
  {
    var k := DigitRun(name);
    d, rest := name[..k], name[k + 1..|name| - 4];
    assert name[k..k + 1] == "_" && name[|name| - 4..] == ".sql";
    assert name == name[..k] + name[k..k + 1] + name[k + 1..|name| - 4] + name[|name| - 4..];
  }

  lemma TicketFrame(name: string) returns (d: string)
    requires NumberOf(Ticket, name).Some?
    ensures d != "" && AllDigits(d) && name == "VT-" + d + ".md" && NumberOf(Ticket, name) == Some(Parse(d))
  {
    var k := DigitRun(name[3..]);
    d := name[3..][..k];
    assert name[..3] == "VT-" && name[|name| - 3..] == ".md" && d == name[3..|name| - 3];
    assert name == name[..3] + name[3..|name| - 3] + name[|name| - 3..];
  }

  lemma FramedIsRead(naming: Naming, name: string, d: string, rest: string)
    requires FramedDigits(naming, name, d, rest)
    ensures NumberOf(naming, name) == Some(Parse(d))
  {
    match naming
    case Migration =>
      forall i | 0 <= i < |rest| ensures rest[i] != '\n' {
        assert rest[i] in rest;
      }
      MigrationIsRead(d, rest);
    case Ticket => TicketIsRead(d);
  }

  lemma MigrationIsRead(d: string, rest: string)
    requires d != "" && AllDigits(d) && OneLine(rest)
    ensures NumberOf(Migration, d + "_" + rest + ".sql") == Some(Parse(d))
  {
    var name, tail := d + "_" + rest + ".sql", "_" + rest + ".sql";
    assert name == d + tail;
    DigitRunOf(d, tail);
    assert DigitRun(name) == |d| && name[..|d|] == d && name[|d|] == '_';
    assert EndsWith(name, ".sql") && |d| + 5 <= |name|;
    StaysOneLine(d, rest);
  }

  lemma StaysOneLine(d: string, rest: string)
    requires AllDigits(d) && OneLine(rest)
    ensures OneLine(d + "_" + rest + ".sql")
  {
    forall i | 0 <= i < |d| ensures IsDigit(d[i]) && d[i] != '\n' {}
  }

  lemma TicketIsRead(d: string)
    requires d != "" && AllDigits(d)
    ensures NumberOf(Ticket, "VT-" + d + ".md") == Some(Parse(d))
  {
    var name := "VT-" + d + ".md";
    assert name[3..] == d + ".md";
    DigitRunOf(d, ".md");
    assert name[3..][..|d|] == d && name[|name| - 3..] == ".md";
  }

  /** The text handed out for `n`: three digits or more, or "VT-" and the digits without a leading zero. */
  ghost predicate HandedOut(naming: Naming, text: string, n: nat) {
    match naming
    case Migration => Spells(text, 3, n)
    case Ticket => "VT-" <= text && Spells(text[3..], 1, n)
  }

  lemma LabelIsHandedOut(naming: Naming, n: nat)
    ensures HandedOut(naming, Label(naming, n), n)
  {
    FmtSpells(n);
    DecimalSpells(n);
    assert ("VT-" + Decimal(n))[3..] == Decimal(n);
  }

  /** A file that a caller names after the text handed out, in the way each script prescribes, is read
      back with that number by the next scan. */
  lemma FileCarriesItsNumber(naming: Naming, n: nat, text: string, description: string, file: string)
    requires HandedOut(naming, text, n) && OneLine(description)
    requires file == text + if naming.Migration? then "_" + description + ".sql" else ".md"
    ensures NumberOf(naming, file) == Some(n)
  {
    match naming
    case Migration =>
      assert file == text + "_" + description + ".sql";
      FramedIsRead(naming, file, text, description);
    case Ticket =>
      assert file == "VT-" + text[3..] + ".md";
      FramedIsRead(naming, file, text[3..], "");
  }

  /** The set of numbers a directory listing carries. */
  ghost function OnDisk(naming: Naming, names: seq<string>): set<nat> {
    set i | 0 <= i < |names| && NumberOf(naming, names[i]).Some? :: NumberOf(naming, names[i]).value
  }

  function MaxOf(nums: seq<nat>): nat {
    if nums == [] then 0
    else
      var rest := MaxOf(nums[..|nums| - 1]);
      if rest < nums[|nums| - 1] then nums[|nums| - 1] else rest
  }

  lemma {:induction false} MaxOfBounds(nums: seq<nat>)
    ensures forall i :: 0 <= i < |nums| ==> nums[i] <= MaxOf(nums)
    ensures nums != [] ==> MaxOf(nums) in nums
  {
    if nums != [] {
      MaxOfBounds(nums[..|nums| - 1]);
    }
  }

  class Directory {
    const naming: Naming
    var names: seq<string>
    var counter: CounterFile
    var journal: seq<string>

    constructor (naming: Naming, names: seq<string>, counter: CounterFile)
      ensures this.naming == naming && this.names == names && this.counter == counter && journal == []
    {
      this.naming, this.names, this.counter, this.journal := naming, names, counter, [];
    }

    ghost function Next(): nat
      reads this
    {
      Settled(counter, Top(OnDisk(naming, names)))
    }

    /** The number settled on when the counter may be unreadable: then the directory alone decides. */
    ghost function NextIf(readable: bool): nat
      reads this
    {
      Settled(if readable then counter else Unreadable, Top(OnDisk(naming, names)))
    }

    /** `scan_max_migration` / `scan_max_vt_id` */
    method ScanMax() returns (m: nat)
      ensures m == Top(OnDisk(naming, names))
    {
      var nums: seq<nat> := [];
      for i := 0 to |names|
        invariant forall x :: x in nums <==> x in OnDisk(naming, names[..i])
      {
        var r := NumberOf(naming, names[i]);
        assert names[..i + 1] == names[..i] + [names[i]];
        assert OnDisk(naming, names[..i + 1]) == OnDisk(naming, names[..i]) + (if r.Some? then {r.value} else {}) by {
          assert forall k :: 0 <= k < i ==> names[..i + 1][k] == names[..i][k];
          assert names[..i + 1][i] == names[i];
        }
        if r.Some? {
          nums := nums + [r.value];
        }
      }
      assert names[..|names|] == names;
      MaxOfBounds(nums);
      m := MaxOf(nums);
    }

    /** `reconcile_next` / `reconcile_next_id`; `readable` is whether reading the counter file goes
        through, where an error counts as 0. */
    method ReconcileNext(readable: bool) returns (n: nat)
      modifies this`counter
      ensures n == old(NextIf(readable)) && counter == Number(n)
      ensures n > Top(OnDisk(naming, names)) && (readable ==> n >= Stored(old(counter)))
    {
      var scanMax := ScanMax();
      var expected := scanMax + 1;
      if counter.Missing? {
        counter := Number(expected);
        return expected;
      }
      var stored := if readable && counter.Number? then counter.n else 0;
      if stored < expected {
        counter := Number(expected);
        return expected;
      }
      return stored;
    }

    /** `allocate`: the claim is journalled only by the migration allocator, and a journal write
        that fails does not stop the claim. */
    method Allocate(readable: bool, journalWritable: bool) returns (text: string, ghost n: nat)
      modifies this`counter, this`journal
      ensures n == old(NextIf(readable)) && HandedOut(naming, text, n)
      ensures n == Top(OnDisk(naming, names)) + 1 || (readable && old(counter) == Number(n))
      ensures n > Top(OnDisk(naming, names)) && (readable && old(counter).Number? ==> n >= old(counter).n)
      ensures counter == Number(n + 1)
      ensures journal == old(journal) + (if naming.Migration? && journalWritable then [text] else [])
      ensures n !in OnDisk(naming, names)
    {
      var current := ReconcileNext(readable);
      counter := Number(current + 1);
      n, text := current, Label(naming, current);
      LabelIsHandedOut(naming, n);
      if naming.Migration? && journalWritable {
        journal := journal + [text];
      }
    }

    /** `peek`: may write the counter, and after it the next claim that can read the counter gets the
        number peeked; a peek that can read it does not change what the next claim will get. */
    method PeekNext(readable: bool) returns (text: string)
      modifies this`counter
      ensures HandedOut(naming, text, old(NextIf(readable))) && Next() == old(NextIf(readable))
      ensures readable ==> Next() == old(Next())
    {
      var current := ReconcileNext(readable);
      text := Label(naming, current);
      LabelIsHandedOut(naming, current);
    }
  }

  /** Creating the claimed file does not disturb the counter: the next claim is the successor. */
  lemma ClaimThenCreate(
      naming: Naming, names: seq<string>, c: CounterFile, n: nat, text: string, description: string, file: string)
    requires n == Settled(c, Top(OnDisk(naming, names))) && HandedOut(naming, text, n) && OneLine(description)
    requires file == text + if naming.Migration? then "_" + description + ".sql" else ".md"
    ensures Settled(Number(n + 1), Top(OnDisk(naming, names + [file]))) == n + 1
  {
    FileCarriesItsNumber(naming, n, text, description, file);
    CreatedFileIsNext(naming, names, c, file, n);
  }

  lemma CreatedFileIsNext(naming: Naming, names: seq<string>, c: CounterFile, file: string, n: nat)
    requires n == Settled(c, Top(OnDisk(naming, names))) && NumberOf(naming, file) == Some(n)
    ensures Settled(Number(n + 1), Top(OnDisk(naming, names + [file]))) == n + 1
  {
    SettledIsMore(c, Top(OnDisk(naming, names)));
    CreatedFileIsOnTop(naming, names, file, n);
  }

  lemma SettledIsMore(c: CounterFile, scanMax: nat)
    ensures Settled(c, scanMax) > scanMax
  {
  }

  lemma CreatedFileIsOnTop(naming: Naming, names: seq<string>, file: string, n: nat)
    requires NumberOf(naming, file) == Some(n) && n > Top(OnDisk(naming, names))
    ensures Top(OnDisk(naming, names + [file])) == n
  {
    assert n in OnDisk(naming, names + [file]) by {
      assert (names + [file])[|names|] == file;
    }
    forall x | x in OnDisk(naming, names + [file]) ensures x == n || x in OnDisk(naming, names) {
      OneFileMore(naming, names, file, x);
    }
  }

  lemma OneFileMore(naming: Naming, names: seq<string>, file: string, x: nat)
    requires x in OnDisk(naming, names + [file])
    ensures NumberOf(naming, file) == Some(x) || x in OnDisk(naming, names)
  {
    var longer := names + [file];
    var i :| 0 <= i < |longer| && NumberOf(naming, longer[i]) == Some(x);
    assert i < |names| ==> longer[i] == names[i];
  }
}

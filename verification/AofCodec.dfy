/** The append-only file's text: commands are printed one after the other, and the loader reads
    them back, from a whole file or from one cut off anywhere. */
module AofCodec {
  import opened Memory

  const LF: Byte := 10
  const CR: Byte := 13
  const DOLLAR: Byte := 36
  const STAR: Byte := 42
  const ZERO: Byte := 48

  type Argv = seq<Bytes>

  // ---- numbers ----

  /** ll2string for a number that is not negative. */
  function Dec(n: nat): (r: Bytes)
    ensures r != []
  {
    if n < 10 then [ZERO + n] else Dec(n / 10) + [ZERO + n % 10]
  }

  predicate IsDigit(b: Byte) { ZERO <= b < ZERO + 10 }

  predicate AllDigits(s: Bytes) { forall i :: 0 <= i < |s| ==> IsDigit(s[i]) }

  /** The value of a row of digits. */
  function Val(s: Bytes): (r: nat)
    requires AllDigits(s)
  {
    if s == [] then 0 else Val(s[..|s| - 1]) * 10 + (s[|s| - 1] - ZERO)
  }

  /** How many digits s starts with. */
  function Lead(s: Bytes): (r: nat)
    ensures r <= |s| && AllDigits(s[..r]) && (r < |s| ==> !IsDigit(s[r]))
  {
    if s == [] || !IsDigit(s[0]) then 0 else 1 + Lead(s[1..])
  }

  predicate IsSpace(b: Byte) { b == 32 || 9 <= b <= 13 }

  function SkipSpace(s: Bytes): Bytes {
    if s != [] && IsSpace(s[0]) then SkipSpace(s[1..]) else s
  }

  /** atoi and strtol: leading white space, an optional sign, then digits. */
  function Atoi(s: Bytes): int {
    var t := SkipSpace(s);
    if t != [] && t[0] == 45 then 0 - Val(t[1..][..Lead(t[1..])])
    else if t != [] && t[0] == 43 then Val(t[1..][..Lead(t[1..])])
    else Val(t[..Lead(t)])
  }

  lemma {:induction false} DecDigits(n: nat)
    ensures AllDigits(Dec(n)) && Val(Dec(n)) == n && (n > 0 ==> Dec(n)[0] > ZERO)
  {
    if n >= 10 {
      DecDigits(n / 10);
      var d := Dec(n);
      assert d[..|d| - 1] == Dec(n / 10);
    } else {
      assert [ZERO + n][..0] == [];
    }
  }

  function Pow10(k: nat): nat { if k == 0 then 1 else 10 * Pow10(k - 1) }

  lemma {:induction false} DecLength(n: nat, k: nat)
    requires k > 0 && n < Pow10(k)
    ensures |Dec(n)| <= k
  {
    if n >= 10 {
      assert k > 1;
      DecLength(n / 10, k - 1);
    }
  }

  lemma {:induction false} LeadOf(d: Bytes, rest: Bytes)
    requires AllDigits(d) && (rest == [] || !IsDigit(rest[0]))
    ensures Lead(d + rest) == |d| && (d + rest)[..|d|] == d
  {
    if d != [] {
      assert (d + rest)[1..] == d[1..] + rest;
      LeadOf(d[1..], rest);
    } else {
      assert d + rest == rest;
    }
  }

  lemma {:induction false} ValPositive(d: Bytes)
    requires AllDigits(d) && d != [] && d[0] > ZERO
    ensures Val(d) > 0
  {
    if |d| > 1 {
      ValPositive(d[..|d| - 1]);
    } else {
      assert d[..0] == [];
    }
  }

  /** Digits followed by something else are read as their value. */
  lemma AtoiDigits(d: Bytes, rest: Bytes)
    requires AllDigits(d) && d != [] && (rest == [] || !IsDigit(rest[0]))
    ensures Atoi(d + rest) == Val(d)
  {
    LeadOf(d, rest);
    assert (d + rest)[0] == d[0];
  }

  lemma AtoiDec(n: nat, rest: Bytes)
    requires rest == [] || !IsDigit(rest[0])
    ensures Atoi(Dec(n) + rest) == n
  {
    DecDigits(n);
    AtoiDigits(Dec(n), rest);
  }

  // ---- printing ----

  function CrLf(): Bytes { [CR, LF] }

  /** A count line: a mark, a number and the line end. */
  function Line(mark: Byte, n: nat): Bytes { [mark] + Dec(n) + CrLf() }

  function PrintArg(a: Bytes): Bytes { Line(DOLLAR, |a|) + a + CrLf() }

  function PrintArgs(argv: Argv): Bytes {
    if argv == [] then [] else PrintArg(argv[0]) + PrintArgs(argv[1..])
  }

  function Print(argv: Argv): Bytes { Line(STAR, |argv|) + PrintArgs(argv) }

  function PrintAll(cmds: seq<Argv>): Bytes {
    if cmds == [] then [] else Print(cmds[0]) + PrintAll(cmds[1..])
  }

  lemma {:induction false} PrintArgsSnoc(argv: Argv, a: Bytes)
    ensures PrintArgs(argv + [a]) == PrintArgs(argv) + PrintArg(a)
  {
    hide PrintArg;
    if argv == [] {
      assert [a][1..] == [];
      assert argv + [a] == [a];
      assert PrintArgs([a]) == PrintArg(a) + PrintArgs([]);
    } else {
      assert (argv + [a])[1..] == argv[1..] + [a];
      PrintArgsSnoc(argv[1..], a);
    }
  }

  lemma {:induction false} PrintAllConcat(a: seq<Argv>, b: seq<Argv>)
    ensures PrintAll(a + b) == PrintAll(a) + PrintAll(b)
  {
    hide Print;
    if a == [] {
      assert a + b == b;
    } else {
      assert (a + b)[1..] == a[1..] + b;
      PrintAllConcat(a[1..], b);
    }
  }

  /** catAppendOnlyGenericCommand. */
  method CatGenericCommand(dst: Bytes, argv: Argv) returns (r: Bytes)
    ensures r == dst + Print(argv)
  {
    hide PrintArg, PrintArgs, Line, Dec, CrLf;
    var line := [STAR] + Dec(|argv|) + CrLf();
    r := dst + line;
    LineIs(STAR, |argv|);
    NoArgs();
    assert argv[..0] == [];
    for j := 0 to |argv|
      invariant r == dst + (line + PrintArgs(argv[..j]))
    {
      var o := argv[j];
      var len := [DOLLAR] + Dec(|o|) + CrLf();
      r := r + len;
      r := r + o;
      r := r + CrLf();
      PrintArgIs(o);
      PrintArgsSnoc(argv[..j], o);
      assert argv[..j + 1] == argv[..j] + [o];
      Regroup(dst, line, PrintArgs(argv[..j]), len, o, CrLf());
    }
    assert argv[..|argv|] == argv;
  }

  lemma NoArgs()
    ensures PrintArgs([]) == []
  {
  }

  lemma Regroup(dst: Bytes, a: Bytes, b: Bytes, c: Bytes, d: Bytes, e: Bytes)
    ensures dst + (a + b) + c + d + e == dst + (a + (b + (c + d + e)))
  {
  }

  lemma LineIs(mark: Byte, n: nat)
    ensures Line(mark, n) == [mark] + Dec(n) + CrLf()
  {
  }

  lemma PrintArgIs(a: Bytes)
    ensures PrintArg(a) == [DOLLAR] + Dec(|a|) + CrLf() + a + CrLf()
  {
  }

  // ---- loading ----

  /** The bytes up to and including the first line end, or all of them. */
  function LineEnd(s: Bytes): (r: nat)
    ensures r <= |s| && (s != [] ==> r > 0)
  {
    if s == [] then 0 else if s[0] == LF then 1 else 1 + LineEnd(s[1..])
  }

  /** The room in the line buffer of the loader, without the terminator. */
  const ROOM: nat := 127

  /** What fgets takes from s. */
  function Fgets(s: Bytes): (r: nat)
    ensures r <= |s| && (s != [] ==> r > 0)
  {
    if LineEnd(s) < ROOM then LineEnd(s) else ROOM
  }

  datatype Item<T> = Item(value: T, rest: Bytes) | Cut | Bad

  function ReadArg(s: Bytes): Item<Bytes> {
    if s == [] then Cut
    else
      var k := Fgets(s);
      var rest := s[k..];
      if s[0] != DOLLAR then Bad
      else
        var len := Atoi(s[1..k]);
        if len < 0 then Bad
        else if len > |rest| || |rest| - len < 2 then Cut
        else Item(rest[..len], rest[len + 2..])
  }

  function ReadArgs(s: Bytes, n: nat): Item<Argv>
    decreases n
  {
    if n == 0 then Item([], s)
    else
      match ReadArg(s)
      case Cut => Cut
      case Bad => Bad
      case Item(a, rest) =>
        match ReadArgs(rest, n - 1)
        case Cut => Cut
        case Bad => Bad
        case Item(as_, rest') => Item([a] + as_, rest')
  }

  /** One command from a file that has not ended. */
  function Read(s: Bytes): (r: Item<Argv>)
    requires s != []
  {
    var k := Fgets(s);
    if s[0] != STAR then Bad
    else if k == 1 || s[1] == 0 then (if k == |s| && s[k - 1] != LF then Cut else Bad)
    else
      var argc := Atoi(s[1..k]);
      if argc < 1 then Bad else ReadArgs(s[k..], argc)
  }

  /** How a load ended: at the end of the file, in the middle of a command, or on data that is
      not a command. */
  datatype Status = Clean | Truncated | Corrupt

  /** The commands loaded, how the load ended, and the offset after the last of them. */
  datatype Loaded = Loaded(cmds: seq<Argv>, status: Status, valid: nat)

  function Load(s: Bytes): Loaded
    decreases |s|
  {
    if s == [] then Loaded([], Clean, 0)
    else
      match Read(s)
      case Cut => Loaded([], Truncated, 0)
      case Bad => Loaded([], Corrupt, 0)
      case Item(argv, rest) =>
        ReadShrinks(s);
        var r := Load(rest);
        Loaded([argv] + r.cmds, r.status, |s| - |rest| + r.valid)
  }

  lemma {:induction false} ReadArgsShrinks(s: Bytes, n: nat)
    ensures ReadArgs(s, n).Item? ==> |ReadArgs(s, n).rest| <= |s| && |ReadArgs(s, n).value| == n
    decreases n
  {
    hide Atoi, Fgets;
    if n > 0 && ReadArg(s).Item? {
      ReadArgsShrinks(ReadArg(s).rest, n - 1);
    }
  }

  lemma ReadShrinks(s: Bytes)
    requires s != []
    ensures Read(s).Item? ==> |Read(s).rest| < |s| && Read(s).value != []
  {
    hide Atoi, ReadArgs;
    var k := Fgets(s);
    if Read(s).Item? {
      ReadArgsShrinks(s[k..], Atoi(s[1..k]));
    }
  }

  /** loadAppendOnlyFile, without running the commands: the calls to fgets and fread advance pos. */
  method LoadFile(file: Bytes) returns (cmds: seq<Argv>, status: Status, valid: nat)
    ensures Loaded(cmds, status, valid) == Load(file)
  {
    hide Atoi, Fgets, ReadArg, ReadArgs, Load;
    var pos := 0;
    cmds, status, valid := [], Clean, 0;
    assert file[0..] == file;
    while pos < |file|
      invariant 0 <= pos <= |file| && valid == pos
      invariant var rest := Load(file[pos..]);
        Load(file) == Loaded(cmds + rest.cmds, rest.status, pos + rest.valid)
      decreases |file| - pos
    {
      ghost var s := file[pos..];
      LoadStep(s);
      ReadShrinks(s);
      var k := Fgets(file[pos..]);
      assert s[1..k] == file[pos + 1..pos + k] && s[k..] == file[pos + k..];
      if file[pos] != STAR { status := Corrupt; return; }
      if k == 1 || file[pos + 1] == 0 {
        status := if pos + k == |file| && file[pos + k - 1] != LF then Truncated else Corrupt;
        return;
      }
      var argc := Atoi(file[pos + 1..pos + k]);
      if argc < 1 { status := Corrupt; return; }
      var argv: Argv, stop: Status;
      var at := pos + k;
      argv, stop, at := LoadArgs(file, at, argc);
      if stop != Clean { status := stop; return; }
      assert Load(file[pos..]).cmds == [argv] + Load(file[at..]).cmds;
      cmds := cmds + [argv];
      pos := at;
      valid := pos;
    }
    assert file[pos..] == [];
    LoadNothing();
  }

  /** The argument loop of loadAppendOnlyFile. */
  method LoadArgs(file: Bytes, start: nat, argc: nat) returns (argv: Argv, stop: Status, at: nat)
    requires start <= |file|
    ensures start <= at <= |file|
    ensures match ReadArgs(file[start..], argc)
      case Item(as_, rest) => stop == Clean && argv == as_ && rest == file[at..]
      case Cut => stop == Truncated
      case Bad => stop == Corrupt
  {
    hide Atoi, Fgets, ReadArgs, ReadArg;
    argv, stop, at := [], Clean, start;
    AfterNothing(ReadArgs(file[start..], argc));
    for j := 0 to argc
      invariant start <= at <= |file| && stop == Clean
      invariant ReadArgs(file[start..], argc) == After(argv, ReadArgs(file[at..], argc - j))
    {
      ghost var s := file[at..];
      ReadArgsStep(s, argc - j);
      ReadArgIs(s);
      if at == |file| { stop := Truncated; return; }
      var k := Fgets(file[at..]);
      assert s[1..k] == file[at + 1..at + k] && s[k..] == file[at + k..];
      if file[at] != DOLLAR { stop := Corrupt; return; }
      var len := Atoi(file[at + 1..at + k]);
      if len < 0 { stop := Corrupt; return; }
      if len > |file| - at - k { stop := Truncated; return; }
      var a := file[at + k..at + k + len];
      assert a == s[k..][..len];
      if |file| - at - k - len < 2 { stop := Truncated; return; }
      AfterBoth(argv, a, ReadArgs(file[at + k + len + 2..], argc - j - 1));
      argv := argv + [a];
      at := at + k + len + 2;
      assert s[k..][len + 2..] == file[at..];
    }
    ReadArgsStep(file[at..], 0);
  }

  function After(argv: Argv, r: Item<Argv>): Item<Argv> {
    match r
    case Item(as_, rest) => Item(argv + as_, rest)
    case Cut => Cut
    case Bad => Bad
  }

  lemma AfterNothing(r: Item<Argv>)
    ensures After([], r) == r
  {
    assert r.Item? ==> [] + r.value == r.value;
  }

  lemma AfterBoth(argv: Argv, a: Bytes, r: Item<Argv>)
    ensures After(argv, After([a], r)) == After(argv + [a], r)
  {
    assert r.Item? ==> argv + ([a] + r.value) == argv + [a] + r.value;
  }

  lemma ReadArgsStep(s: Bytes, n: nat)
    ensures n == 0 ==> ReadArgs(s, n) == Item([], s)
    ensures n > 0 ==> ReadArgs(s, n) == match ReadArg(s)
      case Item(a, rest) => After([a], ReadArgs(rest, n - 1))
      case Cut => Cut
      case Bad => Bad
  {
  }

  lemma ReadArgIs(s: Bytes)
    ensures s == [] ==> ReadArg(s) == Cut
    ensures s != [] && s[0] != DOLLAR ==> ReadArg(s) == Bad
    ensures s != [] && s[0] == DOLLAR ==>
      (var k := Fgets(s); var len := Atoi(s[1..k]); var rest := s[k..];
       ReadArg(s) ==
       if len < 0 then Bad
       else if len > |rest| || |rest| - len < 2 then Cut
       else Item(rest[..len], rest[len + 2..]))
  {
  }

  lemma LoadStep(s: Bytes)
    requires s != []
    ensures Load(s) == match Read(s)
      case Cut => Loaded([], Truncated, 0)
      case Bad => Loaded([], Corrupt, 0)
      case Item(argv, rest) => Loaded([argv] + Load(rest).cmds, Load(rest).status, |s| - |rest| + Load(rest).valid)
    ensures Read(s).Item? ==> |Read(s).rest| < |s|
  {
    ReadShrinks(s);
  }

  lemma LoadNothing()
    ensures Load([]) == Loaded([], Clean, 0)
  {
  }

  // ---- the loader undoes the printer ----

  /** The numbers the server can hold: argument counts and lengths below 10^20. */
  predicate Printable(argv: Argv) {
    argv != [] && |argv| < Pow10(20) && forall i :: 0 <= i < |argv| ==> |argv[i]| < Pow10(20)
  }

  predicate NoLf(s: Bytes) { forall i :: 0 <= i < |s| ==> s[i] != LF }

  lemma {:induction false} LineEndAt(p: Bytes, rest: Bytes)
    requires NoLf(p)
    ensures LineEnd(p + [LF] + rest) == |p| + 1
  {
    var s := p + [LF] + rest;
    if p != [] {
      assert s[1..] == p[1..] + [LF] + rest;
      LineEndAt(p[1..], rest);
    }
  }

  lemma {:induction false} LineEndNone(p: Bytes)
    requires NoLf(p)
    ensures LineEnd(p) == |p|
  {
    if p != [] {
      LineEndNone(p[1..]);
    }
  }

  /** A line with its end: the loader takes exactly it, and reads back its number. */
  lemma ReadLine(mark: Byte, n: nat, rest: Bytes)
    requires mark != LF && n < Pow10(20)
    ensures var s := Line(mark, n) + rest; var k := |Line(mark, n)|;
      && 3 < k == Fgets(s) && s[k..] == rest && s[0] == mark && s[1] == Dec(n)[0] && Atoi(s[1..k]) == n
  {
    hide Atoi, LineEnd, Pow10;
    var p := [mark] + Dec(n) + [CR];
    var s := Line(mark, n) + rest;
    DecDigits(n);
    DecLength(n, 20);
    assert s == p + [LF] + rest;
    LineEndAt(p, rest);
    AtoiDec(n, CrLf());
    assert s[1..|Line(mark, n)|] == Dec(n) + CrLf();
  }

  /** A line cut off before its end: the loader takes all of it. Its number is not negative, and
      not zero either when the whole number is not and some of it is left. */
  lemma ReadCutLine(mark: Byte, n: nat, s: Bytes)
    requires mark != LF && n < Pow10(20) && s <= Line(mark, n) && 0 < |s| < |Line(mark, n)|
    ensures s[0] == mark && Fgets(s) == |s| && s[|s| - 1] != LF && Atoi(s[1..]) >= 0
    ensures n > 0 && |s| > 1 ==> s[1] > 0 && Atoi(s[1..]) > 0
  {
    hide Atoi, LineEnd, Pow10;
    var p := [mark] + Dec(n) + [CR];
    DecDigits(n);
    DecLength(n, 20);
    assert Line(mark, n) == p + [LF];
    assert s == p[..|s|];
    LineEndNone(s);
    var d := if |s| - 1 <= |Dec(n)| then Dec(n)[..|s| - 1] else Dec(n);
    var t := if |s| - 1 <= |Dec(n)| then [] else [CR];
    assert s[1..] == d + t;
    if d != [] {
      AtoiDigits(d, t);
      if n > 0 {
        ValPositive(d);
      }
    } else {
      assert s[1..] == [];
      AtoiNothing();
    }
  }

  lemma AtoiNothing()
    ensures Atoi([]) == 0
  {
  }

  lemma ReadArgOk(a: Bytes, rest: Bytes)
    requires |a| < Pow10(20)
    ensures ReadArg(PrintArg(a) + rest) == Item(a, rest)
  {
    hide Atoi, Fgets, Line, Pow10;
    var s := PrintArg(a) + rest;
    var t := a + CrLf() + rest;
    assert s == Line(DOLLAR, |a|) + t;
    ReadLine(DOLLAR, |a|, t);
    assert t[..|a|] == a && t[|a| + 2..] == rest;
  }

  lemma ReadArgCut(a: Bytes, s: Bytes)
    requires |a| < Pow10(20) && s <= PrintArg(a) && |s| < |PrintArg(a)|
    ensures ReadArg(s) == Cut
  {
    hide Atoi, Fgets, Line, Pow10;
    var l := Line(DOLLAR, |a|);
    assert PrintArg(a) == l + (a + CrLf());
    if s == [] {
    } else if |s| < |l| {
      assert s == l[..|s|];
      ReadCutLine(DOLLAR, |a|, s);
      assert s[1..|s|] == s[1..];
    } else {
      var t := s[|l|..];
      assert s == l + t;
      ReadLine(DOLLAR, |a|, t);
    }
  }

  lemma {:induction false} ReadArgsOk(argv: Argv, rest: Bytes)
    requires forall i :: 0 <= i < |argv| ==> |argv[i]| < Pow10(20)
    ensures ReadArgs(PrintArgs(argv) + rest, |argv|) == Item(argv, rest)
  {
    hide ReadArg, PrintArg, Pow10;
    if argv == [] {
      assert PrintArgs(argv) + rest == rest;
    } else {
      var t := PrintArgs(argv[1..]) + rest;
      assert PrintArgs(argv) + rest == PrintArg(argv[0]) + t;
      ReadArgOk(argv[0], t);
      ReadArgsOk(argv[1..], rest);
      assert [argv[0]] + argv[1..] == argv;
    }
  }

  lemma {:induction false} ReadArgsCut(argv: Argv, s: Bytes)
    requires forall i :: 0 <= i < |argv| ==> |argv[i]| < Pow10(20)
    requires s <= PrintArgs(argv) && |s| < |PrintArgs(argv)|
    ensures ReadArgs(s, |argv|) == Cut
    decreases |argv|
  {
    hide ReadArg, PrintArg, Pow10;
    var first := PrintArg(argv[0]);
    assert PrintArgs(argv) == first + PrintArgs(argv[1..]);
    if |s| < |first| {
      assert s == first[..|s|];
      ReadArgCut(argv[0], s);
    } else {
      var t := s[|first|..];
      assert s == first + t;
      ReadArgOk(argv[0], t);
      ReadArgsCut(argv[1..], t);
    }
  }

  lemma ReadOk(argv: Argv, rest: Bytes)
    requires Printable(argv)
    ensures Print(argv) != [] && Read(Print(argv) + rest) == Item(argv, rest)
  {
    hide Atoi, Fgets, Line, Pow10, ReadArgs, PrintArgs;
    var t := PrintArgs(argv) + rest;
    var s := Print(argv) + rest;
    assert s == Line(STAR, |argv|) + t;
    ReadLine(STAR, |argv|, t);
    DecDigits(|argv|);
    ReadArgsOk(argv, rest);
  }

  lemma ReadCut(argv: Argv, s: Bytes)
    requires Printable(argv) && s <= Print(argv) && 0 < |s| < |Print(argv)|
    ensures Read(s) == Cut
  {
    hide Atoi, Fgets, Line, Pow10, ReadArgs, PrintArgs;
    var l := Line(STAR, |argv|);
    if |s| < |l| {
      assert s == l[..|s|];
      ReadCutLine(STAR, |argv|, s);
      if |s| > 1 {
        assert s[1..|s|] == s[1..] && s[|s|..] == [];
        ReadArgsStep([], Atoi(s[1..]));
        ReadArgIs([]);
      }
    } else {
      var t := s[|l|..];
      assert s == l + t;
      ReadLine(STAR, |argv|, t);
      DecDigits(|argv|);
      ReadArgsCut(argv, t);
    }
  }

  /** Loading what was printed gives back exactly the commands. */
  lemma {:induction false} RoundTrip(cmds: seq<Argv>)
    requires forall i :: 0 <= i < |cmds| ==> Printable(cmds[i])
    ensures Load(PrintAll(cmds)) == Loaded(cmds, Clean, |PrintAll(cmds)|)
  {
    hide Read, Print, Printable;
    if cmds != [] {
      ReadOk(cmds[0], PrintAll(cmds[1..]));
      RoundTrip(cmds[1..]);
      LoadStep(PrintAll(cmds));
      assert [cmds[0]] + cmds[1..] == cmds;
    }
  }

  /** How many of the commands lie wholly in the first n bytes. */
  function Complete(cmds: seq<Argv>, n: nat): (k: nat)
    ensures k <= |cmds|
  {
    if cmds == [] || n < |Print(cmds[0])| then 0 else 1 + Complete(cmds[1..], n - |Print(cmds[0])|)
  }

  /** Complete counts as many commands as fit, and no more. */
  lemma {:induction false} CompleteIs(cmds: seq<Argv>, n: nat)
    ensures var k := Complete(cmds, n);
      |PrintAll(cmds[..k])| <= n && (k < |cmds| ==> n < |PrintAll(cmds[..k + 1])|)
  {
    hide Print;
    var k := Complete(cmds, n);
    if cmds == [] || n < |Print(cmds[0])| {
      assert cmds[..0] == [];
      if cmds != [] {
        assert cmds[..1] == [cmds[0]] && cmds[..1][1..] == [];
        assert PrintAll([cmds[0]]) == Print(cmds[0]) + PrintAll([]);
      }
    } else {
      CompleteIs(cmds[1..], n - |Print(cmds[0])|);
      assert cmds[..k][1..] == cmds[1..][..k - 1];
      if k < |cmds| {
        assert cmds[..k + 1][1..] == cmds[1..][..k];
      }
    }
  }

  /** Loading a file cut off after n bytes gives exactly the complete commands, with the valid
      offset at their end, and is clean only when the cut lies between two commands. */
  lemma {:induction false} PrefixTheorem(cmds: seq<Argv>, n: nat)
    requires forall i :: 0 <= i < |cmds| ==> Printable(cmds[i])
    requires n <= |PrintAll(cmds)|
    ensures var k := Complete(cmds, n);
      Load(PrintAll(cmds)[..n]) ==
        Loaded(cmds[..k], if |PrintAll(cmds[..k])| == n then Clean else Truncated, |PrintAll(cmds[..k])|)
    decreases |cmds|
  {
    hide Read, Print, Printable;
    var k := Complete(cmds, n);
    var s := PrintAll(cmds)[..n];
    if n == 0 {
      if cmds != [] {
        ReadOk(cmds[0], []);
      }
      assert cmds[..0] == [];
    } else {
      var first := Print(cmds[0]);
      assert PrintAll(cmds) == first + PrintAll(cmds[1..]);
      LoadStep(s);
      if n < |first| {
        assert s == first[..n];
        ReadCut(cmds[0], s);
        assert cmds[..0] == [];
      } else {
        var t := PrintAll(cmds[1..])[..n - |first|];
        assert s == first + t;
        ReadOk(cmds[0], t);
        PrefixTheorem(cmds[1..], n - |first|);
        assert cmds[..k][1..] == cmds[1..][..k - 1];
        assert cmds[..k] == [cmds[0]] + cmds[1..][..k - 1];
        assert |PrintAll(cmds[..k])| == |first| + |PrintAll(cmds[1..][..k - 1])|;
      }
    }
  }
}

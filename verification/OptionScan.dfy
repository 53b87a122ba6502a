/** What `getopt` recognises in a command line that nobody permutes. */
module OptionScan {
  import opened Options
  import opened Sequences

  /** `struct option`; `flag` names the variable that a match sets. */
  datatype LongOpt = LongOpt(name: string, hasArg: nat, flag: Option<nat>, val: int)

  /** What a caller asks for. */
  datatype Config = Config(optstring: string, longopts: Option<seq<LongOpt>>, longOnly: bool)

  /** What one call reports: the returned code, `optarg`, and what it stores elsewhere. */
  datatype Report = Report(code: int, optarg: Option<string>, optopt: Option<char>, longind: Option<nat>, flag: Option<(nat, int)>)

  /** A report, the characters left in the element, and how many elements are done with. */
  datatype Decoded = Decoded(report: Report, next: string, used: nat)

  const QUESTION: int := '?' as int
  const COLON: int := ':' as int

  /** Neither an option nor `--`: it does not start with a dash, or is a dash alone. */
  predicate IsNonOption(elem: string) {
    |elem| < 2 || elem[0] != '-'
  }

  // ----- long options -----

  /** The first option from `i` on that is called `name`. */
  function FirstExact(ls: seq<LongOpt>, name: string, i: nat): (r: nat)
    requires i <= |ls|
    ensures i <= r <= |ls|
    ensures r < |ls| ==> ls[r].name == name
    ensures forall j :: i <= j < r ==> ls[j].name != name
    decreases |ls| - i
  {
    if i == |ls| || ls[i].name == name then i else FirstExact(ls, name, i + 1)
  }

  /** The first option from `i` on that `name` abbreviates. */
  function FirstPrefix(ls: seq<LongOpt>, name: string, i: nat): (r: nat)
    requires i <= |ls|
    ensures i <= r <= |ls|
    ensures r < |ls| ==> name <= ls[r].name
    ensures forall j :: i <= j < r ==> !(name <= ls[j].name)
    decreases |ls| - i
  {
    if i == |ls| || name <= ls[i].name then i else FirstPrefix(ls, name, i + 1)
  }

  datatype Found = NoMatch | Match(index: nat) | Ambiguous

  /** An exact name wins; otherwise an abbreviation has to be unique. */
  function Lookup(ls: seq<LongOpt>, name: string): (r: Found)
    ensures r.Match? ==> r.index < |ls|
  {
    var exact := FirstExact(ls, name, 0);
    var p := FirstPrefix(ls, name, 0);
    if exact < |ls| then Match(exact)
    else if p == |ls| then NoMatch
    else if FirstPrefix(ls, name, p + 1) < |ls| then Ambiguous
    else Match(p)
  }

  /** What a lookup finds: the first option of that very name, or else the only one it abbreviates. */
  lemma LookupMeaning(ls: seq<LongOpt>, name: string)
    ensures var r := Lookup(ls, name);
            (r.Match? ==> name <= ls[r.index].name)
            && (r.NoMatch? <==> forall j :: 0 <= j < |ls| ==> !(name <= ls[j].name))
            && (r.Ambiguous? <==>
                  (forall j :: 0 <= j < |ls| ==> ls[j].name != name)
                  && exists i, j :: 0 <= i < j < |ls| && name <= ls[i].name && name <= ls[j].name)
    ensures forall i :: 0 <= i < |ls| && ls[i].name == name ==>
              Lookup(ls, name).Match? && ls[Lookup(ls, name).index].name == name && Lookup(ls, name).index <= i
  {
    var p := FirstPrefix(ls, name, 0);
    var q := if p < |ls| then FirstPrefix(ls, name, p + 1) else p;
    assert forall i :: 0 <= i < |ls| && name <= ls[i].name && i != p ==> i >= q;
  }

  /** How many characters of `s` stand before the first `=`. */
  function NameEnd(s: string): (n: nat)
    ensures n <= |s| && (n < |s| ==> s[n] == '=') && forall i :: 0 <= i < n ==> s[i] != '='
  {
    if s == [] || s[0] == '=' then 0 else 1 + NameEnd(s[1..])
  }

  /** Whether an element is first looked up among the long options. */
  predicate TriesLong(cfg: Config, elem: string)
    requires |elem| >= 2
  {
    cfg.longopts.Some? && (elem[1] == '-' || (cfg.longOnly && (|elem| > 2 || elem[1] !in cfg.optstring)))
  }

  function Plainly(code: int): Report {
    Report(code, None, None, None, None)
  }

  /** `:` when the caller wants to tell a missing argument from an unknown option. */
  function MissingCode(cfg: Config): int {
    if cfg.optstring != [] && cfg.optstring[0] == ':' then COLON else QUESTION
  }

  function Chosen(o: LongOpt, i: nat, optarg: Option<string>): Report {
    match o.flag
    case None => Report(o.val, optarg, None, Some(i), None)
    case Some(f) => Report(0, optarg, None, Some(i), Some((f, o.val)))
  }

  /** Long option number `i`, whose name ends `n` characters into `next`. */
  function DecodeMatch(cfg: Config, o: LongOpt, i: nat, rest: seq<string>, next: string, n: nat): Decoded
    requires rest != [] && n <= |next|
  {
    if n < |next| then
      if o.hasArg != 0 then Decoded(Chosen(o, i, Some(next[n + 1..])), "", 1)
      else Decoded(Plainly(QUESTION), "", 1)
    else if o.hasArg == 1 then
      if |rest| > 1 then Decoded(Chosen(o, i, Some(rest[1])), "", 2)
      else Decoded(Plainly(MissingCode(cfg)), "", 1)
    else
      Decoded(Chosen(o, i, None), "", 1)
  }

  // ----- short options -----

  /** `my_index`. */
  function IndexOf(s: string, c: char): (r: nat)
    ensures r <= |s| && (r < |s| ==> s[r] == c) && forall i :: 0 <= i < r ==> s[i] != c
  {
    if s == [] || s[0] == c then 0 else 1 + IndexOf(s[1..], c)
  }

  predicate ColonAt(s: string, i: nat) {
    i < |s| && s[i] == ':'
  }

  function Bad(code: int, c: char): Report {
    Report(code, None, Some(c), None, None)
  }

  function WithArg(c: char, optarg: Option<string>): Report {
    Report(c as int, optarg, None, None, None)
  }

  /** The next option character of an element. */
  function DecodeShort(cfg: Config, rest: seq<string>, next: string): (d: Decoded)
    requires rest != [] && next != []
    ensures d.used <= |rest| && (d.used == 0 ==> d.next == next[1..] != []) && (d.used > 0 ==> d.next == [])
  {
    var c, tail := next[0], next[1..];
    var last := if tail == [] then 1 else 0;
    var i := IndexOf(cfg.optstring, c);
    if i == |cfg.optstring| || c == ':' then Decoded(Bad(QUESTION, c), tail, last)
    else if !ColonAt(cfg.optstring, i + 1) then Decoded(WithArg(c, None), tail, last)
    else if tail != [] then Decoded(WithArg(c, Some(tail)), "", 1)
    else if ColonAt(cfg.optstring, i + 2) then Decoded(WithArg(c, None), "", 1)
    else if |rest| == 1 then Decoded(Bad(MissingCode(cfg), c), "", 1)
    else Decoded(WithArg(c, Some(rest[1])), "", 2)
  }

  /** What `next`, inside the first element of `rest`, stands for. */
  function Decode(cfg: Config, rest: seq<string>, next: string): (d: Decoded)
    requires rest != [] && |rest[0]| >= 2 && next != []
    ensures d.used <= |rest| && (d.used == 0 ==> d.next == next[1..] != []) && (d.used > 0 ==> d.next == [])
  {
    if !TriesLong(cfg, rest[0]) then DecodeShort(cfg, rest, next)
    else
      var n := NameEnd(next);
      match Lookup(cfg.longopts.value, next[..n])
      case Ambiguous => Decoded(Plainly(QUESTION), "", 1)
      case Match(i) => DecodeMatch(cfg, cfg.longopts.value[i], i, rest, next, n)
      case NoMatch =>
        if !cfg.longOnly || rest[0][1] == '-' || next[0] !in cfg.optstring then Decoded(Plainly(QUESTION), "", 1)
        else DecodeShort(cfg, rest, next)
  }

  /** An option element without its punctuation. */
  function Start(cfg: Config, elem: string): (s: string)
    requires !IsNonOption(elem) && elem != "--"
    ensures 0 < |s| < |elem|
  {
    if cfg.longopts.Some? && elem[1] == '-' then elem[2..] else elem[1..]
  }

  // ----- whole command lines -----

  /** Everything that is reported up to the end, and which elements belong to options. */
  datatype Scanned = Scanned(reports: seq<Report>, marks: seq<bool>)

  function Marks(n: nat, mark: bool): (s: seq<bool>)
    ensures |s| == n
  {
    seq(n, i => mark)
  }

  /** Scanning from `next` in the first element of `rest`, or from its start when `next` is empty. Non-options
      are skipped, and `--` ends the options. */
  function Scan(cfg: Config, rest: seq<string>, next: string): (s: Scanned)
    requires next != [] ==> rest != [] && |rest[0]| >= 2
    ensures |s.marks| == |rest|
    decreases |rest|, if next == [] && rest != [] then |rest[0]| + 1 else |next|
  {
    if next == [] && rest == [] then Scanned([], [])
    else if next == [] && IsNonOption(rest[0]) then
      var s := Scan(cfg, rest[1..], []);
      Scanned(s.reports, [false] + s.marks)
    else if next == [] && rest[0] == "--" then
      Scanned([], [true] + Marks(|rest| - 1, false))
    else
      var d := Decode(cfg, rest, if next == [] then Start(cfg, rest[0]) else next);
      var s := Scan(cfg, rest[d.used..], d.next);
      Scanned([d.report] + s.reports, Marks(d.used, true) + s.marks)
  }

  /** The elements with the given mark, in their order. */
  function Select(s: seq<string>, marks: seq<bool>, mark: bool): seq<string>
    requires |s| == |marks|
  {
    if s == [] then [] else (if marks[0] == mark then [s[0]] else []) + Select(s[1..], marks[1..], mark)
  }

  lemma {:induction false} SelectJoin(s: seq<string>, t: seq<string>, m: seq<bool>, n: seq<bool>, mark: bool)
    requires |s| == |m| && |t| == |n|
    ensures Select(s + t, m + n, mark) == Select(s, m, mark) + Select(t, n, mark)
  {
    if s == [] {
      assert s + t == t && m + n == n;
    } else {
      assert (s + t)[1..] == s[1..] + t && (m + n)[1..] == m[1..] + n;
      SelectJoin(s[1..], t, m[1..], n, mark);
    }
  }

  lemma {:induction false} SelectAll(s: seq<string>, mark: bool)
    ensures Select(s, Marks(|s|, mark), mark) == s && Select(s, Marks(|s|, mark), !mark) == []
  {
    if s != [] {
      assert Marks(|s|, mark)[1..] == Marks(|s| - 1, mark);
      SelectAll(s[1..], mark);
    }
  }

  /** Options first, everything else behind them: a rearrangement of the same elements. */
  lemma {:induction false} SelectPermutes(s: seq<string>, marks: seq<bool>)
    requires |s| == |marks|
    ensures multiset(Select(s, marks, true) + Select(s, marks, false)) == multiset(s)
  {
    if s != [] {
      SelectPermutes(s[1..], marks[1..]);
      assert s == [s[0]] + s[1..];
      assert multiset(s) == multiset{s[0]} + multiset(s[1..]);
    }
  }

  // ----- scanning in steps -----

  lemma {:induction false} ScanSkip(cfg: Config, rest: seq<string>, n: nat)
    requires n <= |rest| && forall k :: 0 <= k < n ==> IsNonOption(rest[k])
    ensures Scan(cfg, rest, []) == Scanned(Scan(cfg, rest[n..], []).reports, Marks(n, false) + Scan(cfg, rest[n..], []).marks)
    decreases n
  {
    hide Decode, Start;
    if n == 0 {
      assert rest[0..] == rest && Marks(0, false) + Scan(cfg, rest, []).marks == Scan(cfg, rest, []).marks;
    } else {
      ScanSkip(cfg, rest[1..], n - 1);
      assert rest[1..][n - 1..] == rest[n..];
      assert Marks(n, false) == [false] + Marks(n - 1, false);
      Assoc([false], Marks(n - 1, false), Scan(cfg, rest[n..], []).marks);
    }
  }

  /** One option. */
  lemma ScanOption(cfg: Config, rest: seq<string>, next: string)
    requires rest != [] && |rest[0]| >= 2
    requires next == [] ==> !IsNonOption(rest[0]) && rest[0] != "--"
    ensures var d := Decode(cfg, rest, if next == [] then Start(cfg, rest[0]) else next);
            var s := Scan(cfg, rest[d.used..], d.next);
            Scan(cfg, rest, next) == Scanned([d.report] + s.reports, Marks(d.used, true) + s.marks)
  {}

  lemma ScanEnd(cfg: Config, rest: seq<string>)
    requires rest == [] || rest[0] == "--"
    ensures Scan(cfg, rest, [])
         == Scanned([], if rest == [] then [] else Marks(1, true) + Marks(|rest| - 1, false))
  {
    assert Marks(1, true) == [true];
  }
}

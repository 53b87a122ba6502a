/** GNU `getopt`: a scanner that moves the options of `argv` to the front between its calls. */
module Getopt {
  import opened Options
  import opened Sequences
  import opened OptionScan
  import opened OptionString

  datatype Ordering = RequireOrder | Permute | ReturnInOrder

  /** `s` with the blocks of length `len` at `i` and at `j` exchanged. */
  function Swapped<T>(s: seq<T>, i: nat, j: nat, len: nat): (r: seq<T>)
    requires i + len <= j && j + len <= |s|
    ensures |r| == |s|
  {
    s[..i] + s[j..j + len] + s[i + len..j] + s[i..i + len] + s[j + len..]
  }

  lemma SwappedParts<T>(a: seq<T>, x: seq<T>, y: seq<T>, z: seq<T>, b: seq<T>)
    requires |x| == |z|
    ensures Swapped(a + x + y + z + b, |a|, |a| + |x| + |y|, |x|) == a + z + y + x + b
  {
    var s := a + x + y + z + b;
    var j := |a| + |x| + |y|;
    assert s[..|a|] == a && s[|a|..|a| + |x|] == x && s[|a| + |x|..j] == y && s[j..j + |z|] == z && s[j + |z|..] == b;
  }

  /** What stands where afterwards. */
  lemma SwappedAt<T>(s: seq<T>, i: nat, j: nat, len: nat, n: nat)
    requires i + len <= j && j + len <= |s| && n < |s|
    ensures Swapped(s, i, j, len)[n] ==
            if i <= n < i + len then s[n - i + j] else if j <= n < j + len then s[n - j + i] else s[n]
  {}

  /** One more element of either block. */
  lemma SwapStep<T>(s: seq<T>, i: nat, j: nat, k: nat)
    requires i + k < j && j + k < |s|
    ensures var t := Swapped(s, i, j, k);
            t[i + k] == s[i + k] && t[j + k] == s[j + k] && t[i + k := s[j + k]][j + k := s[i + k]] == Swapped(s, i, j, k + 1)
  {
    hide Swapped;
    SwappedAt(s, i, j, k, i + k);
    SwappedAt(s, i, j, k, j + k);
    var t, u := Swapped(s, i, j, k)[i + k := s[j + k]][j + k := s[i + k]], Swapped(s, i, j, k + 1);
    forall n | 0 <= n < |s|
      ensures t[n] == u[n]
    {
      SwappedAt(s, i, j, k, n);
      SwappedAt(s, i, j, k + 1, n);
    }
  }

  lemma SwapNone<T>(s: seq<T>, i: nat, j: nat)
    requires i <= j <= |s|
    ensures Swapped(s, i, j, 0) == s
  {}

  /** The loop that swaps two blocks element by element. */
  method SwapBlocks(argv: array<string>, i: nat, j: nat, len: nat)
    requires i + len <= j && j + len <= argv.Length
    modifies argv
    ensures argv[..] == Swapped(old(argv[..]), i, j, len)
  {
    hide Swapped;
    ghost var was := argv[..];
    SwapNone(was, i, j);
    var k := 0;
    while k < len
      invariant 0 <= k <= len
      invariant argv[..] == Swapped(was, i, j, k)
    {
      SwapStep(was, i, j, k);
      assert argv[i + k] == argv[..][i + k] && argv[j + k] == argv[..][j + k];
      var tem := argv[i + k];
      argv[i + k] := argv[j + k];
      argv[j + k] := tem;
      assert argv[..] == Swapped(was, i, j, k)[i + k := was[j + k]][j + k := was[i + k]];
      k := k + 1;
    }
  }

  lemma Pieces<T>(s: seq<T>, a: nat, b: nat, c: nat, d: nat)
    requires a <= b <= c <= d <= |s|
    ensures s == s[..a] + s[a..b] + s[b..c] + s[c..d] + s[d..]
  {}

  /** `s` with its segments `[bottom, middle)` and `[middle, top)` exchanged. */
  function Rotated<T>(s: seq<T>, bottom: nat, middle: nat, top: nat): (r: seq<T>)
    requires bottom <= middle <= top <= |s|
    ensures |r| == |s|
  {
    s[..bottom] + s[middle..top] + s[bottom..middle] + s[top..]
  }

  lemma RotatedParts<T>(a: seq<T>, p: seq<T>, q: seq<T>, b: seq<T>)
    ensures Rotated(a + p + q + b, |a|, |a| + |p|, |a| + |p| + |q|) == a + q + p + b
  {
    var s := a + p + q + b;
    var m := |a| + |p|;
    assert s[..|a|] == a && s[|a|..m] == p && s[m..m + |q|] == q && s[m + |q|..] == b;
  }

  lemma Regroup<T>(a: seq<T>, x: seq<T>, y: seq<T>, z: seq<T>, b: seq<T>)
    ensures a + x + y + z + b == a + x + (y + z) + b
    ensures a + x + y + z + b == a + (x + y) + z + b
    ensures a + x + y + z + b == a + x + y + (z + b)
    ensures a + x + y + z + b == (a + x) + y + z + b
  {}

  /** With the bottom segment the short one, its swap with the far end of the top segment puts it in place. */
  lemma RotateShortBottom<T>(s: seq<T>, bottom: nat, middle: nat, top: nat)
    requires bottom <= middle <= top <= |s| && top - middle > middle - bottom
    ensures var len := middle - bottom;
            Rotated(Swapped(s, bottom, top - len, len), bottom, middle, top - len) == Rotated(s, bottom, middle, top)
  {
    hide Rotated, Swapped;
    var len := middle - bottom;
    var a, x, y, z, b := s[..bottom], s[bottom..middle], s[middle..top - len], s[top - len..top], s[top..];
    Pieces(s, bottom, middle, top - len, top);
    SwappedParts(a, x, y, z, b);
    Regroup(a, x, y, z, b);
    RotatedParts(a, x, y + z, b);
    Regroup(a, z, y, x, b);
    RotatedParts(a, z, y, x + b);
    Regroup(a, y, z, x, b);
  }

  /** With the top segment the short one, its swap with the near end of the bottom segment puts it in place. */
  lemma RotateShortTop<T>(s: seq<T>, bottom: nat, middle: nat, top: nat)
    requires bottom <= middle <= top <= |s| && top - middle <= middle - bottom
    ensures var len := top - middle;
            Rotated(Swapped(s, bottom, middle, len), bottom + len, middle, top) == Rotated(s, bottom, middle, top)
  {
    hide Rotated, Swapped;
    var len := top - middle;
    var a, x, y, z, b := s[..bottom], s[bottom..bottom + len], s[bottom + len..middle], s[middle..top], s[top..];
    Pieces(s, bottom, bottom + len, middle, top);
    SwappedParts(a, x, y, z, b);
    Regroup(a, x, y, z, b);
    RotatedParts(a, x + y, z, b);
    Regroup(a, z, y, x, b);
    RotatedParts(a + z, y, x, b);
    Regroup(a, z, x, y, b);
  }

  /** The loop of `exchange`: an in-place rotation. */
  method Rotate(argv: array<string>, first: nat, last: nat, end: nat)
    requires first <= last <= end <= argv.Length
    modifies argv
    ensures argv[..] == Rotated(old(argv[..]), first, last, end)
  {
    hide Rotated, Swapped;
    ghost var goal := Rotated(argv[..], first, last, end);
    var bottom, middle, top := first, last, end;
    while top > middle && middle > bottom
      invariant first <= bottom <= middle <= top <= end
      invariant Rotated(argv[..], bottom, middle, top) == goal
      decreases top - bottom
    {
      if top - middle > middle - bottom {
        RotateShortBottom(argv[..], bottom, middle, top);
        SwapBlocks(argv, bottom, top - (middle - bottom), middle - bottom);
        top := top - (middle - bottom);
      } else {
        RotateShortTop(argv[..], bottom, middle, top);
        SwapBlocks(argv, bottom, middle, top - middle);
        bottom := bottom + (top - middle);
      }
    }
    RotatedNothing(argv[..], bottom, middle, top);
  }

  lemma RotatedNothing<T>(s: seq<T>, bottom: nat, middle: nat, top: nat)
    requires bottom <= middle <= top <= |s| && (bottom == middle || middle == top)
    ensures Rotated(s, bottom, middle, top) == s
  {}

  // ----- where the elements are between two calls -----

  /** `s` is the original `o` after `optind - 1` elements have been scanned, marked as belonging to options or not.
      The marked ones lie in front of `first` and behind `last`, the others between, each in their old order. */
  ghost predicate Split(s: seq<string>, o: seq<string>, marks: seq<bool>, first: nat, last: nat, optind: nat) {
    |s| == |o| && 1 <= first <= last <= optind <= |s| && |marks| == optind - 1
    && s[0] == o[0] && s[optind..] == o[optind..]
    && s[1..first] + s[last..optind] == Select(o[1..optind], marks, true)
    && s[first..last] == Select(o[1..optind], marks, false)
  }

  lemma SplitFacts(s: seq<string>, o: seq<string>, marks: seq<bool>, first: nat, last: nat, optind: nat)
    requires Split(s, o, marks, first, last, optind)
    ensures |s| == |o| && 1 <= first <= last <= optind <= |s| && forall k :: optind <= k < |s| ==> s[k] == o[k]
  {
    forall k | optind <= k < |s|
      ensures s[k] == o[k]
    {
      assert s[k] == s[optind..][k - optind] && o[k] == o[optind..][k - optind];
    }
  }

  /** Nothing scanned yet. */
  lemma SplitStart(s: seq<string>)
    requires |s| >= 1
    ensures Split(s, s, [], 1, 1, 1)
  {
    assert s[1..1] + s[1..1] == [];
  }

  /** `exchange` keeps the split and moves the boundaries. */
  lemma SplitExchange(s: seq<string>, o: seq<string>, marks: seq<bool>, first: nat, last: nat, optind: nat)
    requires Split(s, o, marks, first, last, optind)
    ensures Split(Rotated(s, first, last, optind), o, marks, first + (optind - last), optind, optind)
  {
    var a, p, q, b := s[..first], s[first..last], s[last..optind], s[optind..];
    var t := Rotated(s, first, last, optind);
    assert t == a + q + p + b;
    var mid := first + (optind - last);
    assert t[1..mid] == s[1..first] + q;
    assert t[mid..optind] == p && t[optind..] == b;
    assert s[1..first] + q + t[optind..optind] == s[1..first] + q;
  }

  /** Without non-options between, the boundaries may move up. */
  lemma SplitEmpty(s: seq<string>, o: seq<string>, marks: seq<bool>, first: nat, optind: nat)
    requires Split(s, o, marks, first, first, optind)
    ensures Split(s, o, marks, optind, optind, optind)
  {
    assert s[1..optind] == s[1..first] + s[first..optind];
    assert s[1..optind] + s[optind..optind] == s[1..optind];
  }

  lemma TakeMore(o: seq<string>, a: nat, b: nat)
    requires 1 <= a <= b <= |o|
    ensures o[1..b] == o[1..a] + o[a..b]
  {}

  /** Passing over non-options behind the others. */
  lemma SplitSkip(s: seq<string>, o: seq<string>, marks: seq<bool>, first: nat, optind: nat, n: nat)
    requires Split(s, o, marks, first, optind, optind) && optind + n <= |s|
    ensures Split(s, o, marks + Marks(n, false), first, optind + n, optind + n)
  {
    hide Select, Marks;
    var to := optind + n;
    TakeMore(o, optind, to);
    SelectJoin(o[1..optind], o[optind..to], marks, Marks(n, false), true);
    SelectJoin(o[1..optind], o[optind..to], marks, Marks(n, false), false);
    assert |o[optind..to]| == n;
    SelectAll(o[optind..to], false);
    SameTail(s, o, optind, to);
    assert s[first..to] == s[first..optind] + s[optind..to];
    assert s[1..first] + s[to..to] == s[1..first] + s[optind..optind];
  }

  lemma SameTail(s: seq<string>, o: seq<string>, a: nat, b: nat)
    requires |s| == |o| && a <= b <= |s| && s[a..] == o[a..]
    ensures s[a..b] == o[a..b] && s[b..] == o[b..]
  {
    assert s[a..b] == s[a..][..b - a] && o[a..b] == o[a..][..b - a];
    assert s[b..] == s[a..][b - a..] && o[b..] == o[a..][b - a..];
  }

  /** Taking elements for options. */
  lemma SplitTake(s: seq<string>, o: seq<string>, marks: seq<bool>, first: nat, last: nat, optind: nat, n: nat)
    requires Split(s, o, marks, first, last, optind) && optind + n <= |s|
    ensures Split(s, o, marks + Marks(n, true), first, last, optind + n)
  {
    hide Select, Marks;
    var to := optind + n;
    TakeMore(o, optind, to);
    SelectJoin(o[1..optind], o[optind..to], marks, Marks(n, true), true);
    SelectJoin(o[1..optind], o[optind..to], marks, Marks(n, true), false);
    assert |o[optind..to]| == n;
    SelectAll(o[optind..to], true);
    SameTail(s, o, optind, to);
    assert s[last..to] == s[last..optind] + s[optind..to];
    Assoc(s[1..first], s[last..optind], s[optind..to]);
  }

  /** Everything scanned: the options first, the rest behind them. */
  lemma SplitDone(s: seq<string>, o: seq<string>, marks: seq<bool>, first: nat)
    requires Split(s, o, marks, first, |s|, |s|)
    ensures s == [o[0]] + Select(o[1..], marks, true) + Select(o[1..], marks, false)
    ensures first == 1 + |Select(o[1..], marks, true)|
  {
    assert o[1..|s|] == o[1..];
    assert s[1..first] + s[|s|..|s|] == s[1..first];
    assert s == [s[0]] + s[1..first] + s[first..|s|];
  }

  // ----- looking things up -----

  /** The loop over `longopts`: an exact name ends it, and a second abbreviation is only remembered. */
  method FindLong(ls: seq<LongOpt>, name: string) returns (r: Found)
    ensures r == Lookup(ls, name)
  {
    var i, pfound, ambig := 0, |ls|, false;
    while i < |ls|
      invariant 0 <= i <= |ls| && FirstExact(ls, name, 0) == FirstExact(ls, name, i)
      invariant pfound == |ls| ==> !ambig && FirstPrefix(ls, name, 0) == FirstPrefix(ls, name, i)
      invariant pfound < |ls| ==> pfound < i && FirstPrefix(ls, name, 0) == pfound
      invariant pfound < |ls| && ambig ==> FirstPrefix(ls, name, pfound + 1) < |ls|
      invariant pfound < |ls| && !ambig ==> FirstPrefix(ls, name, pfound + 1) == FirstPrefix(ls, name, i)
      invariant pfound <= |ls|
    {
      if name <= ls[i].name {
        if |ls[i].name| == |name| {
          return Match(i);
        }
        if pfound == |ls| {
          pfound := i;
        } else {
          ambig := true;
        }
      }
      i := i + 1;
    }
    return if ambig then Ambiguous else if pfound < |ls| then Match(pfound) else NoMatch;
  }

  /** `my_index`. */
  method MyIndex(s: string, c: char) returns (i: nat)
    ensures i == IndexOf(s, c)
  {
    i := 0;
    assert s[0..] == s;
    while i < |s|
      invariant 0 <= i <= |s| && IndexOf(s, c) == i + IndexOf(s[i..], c)
    {
      if s[i] == c {
        return;
      }
      assert s[i..][1..] == s[i + 1..];
      i := i + 1;
    }
  }

  method FindNameEnd(s: string) returns (n: nat)
    ensures n == NameEnd(s)
  {
    n := 0;
    assert s[0..] == s;
    while n < |s| && s[n] != '='
      invariant 0 <= n <= |s| && NameEnd(s) == n + NameEnd(s[n..])
    {
      assert s[n..][1..] == s[n + 1..];
      n := n + 1;
    }
  }

  // ----- the scanner -----

  const EOF_CODE: int := -1

  /** The static variables of `getopt.c`, and the variables that long options set. A null `nextchar` is empty. */
  class Scanner {
    const argv: array<string>
    const posixlyCorrect: bool
    var optind: nat
    var nextchar: string
    var firstNonopt: nat
    var lastNonopt: nat
    var ordering: Ordering
    var optarg: Option<string>
    var optopt: char
    var longind: nat
    var flags: map<nat, int>

    constructor (argv: array<string>, posixlyCorrect: bool)
      ensures this.argv == argv && this.posixlyCorrect == posixlyCorrect && optind == 0
    {
      this.argv, this.posixlyCorrect := argv, posixlyCorrect;
      optind, nextchar, firstNonopt, lastNonopt := 0, "", 0, 0;
      ordering, optarg, optopt, longind, flags := Permute, None, '?', 0, map[];
    }

    /** Inside an element, or between two. */
    predicate Valid()
      reads this, argv
    {
      1 <= optind <= argv.Length && (nextchar != [] ==> optind < argv.Length && |argv[optind]| >= 2)
    }

    /** What has not been scanned. */
    function Rest(): seq<string>
      reads this, argv
      requires optind <= argv.Length
    {
      argv[optind..]
    }

    /** `_getopt_initialize`. A leading `-` or `+` chooses the ordering and is dropped, for this call only. */
    method Initialize(optstring: string) returns (r: string)
      modifies this`optind, this`nextchar, this`firstNonopt, this`lastNonopt, this`ordering
      ensures optind == 1 && firstNonopt == 1 && lastNonopt == 1 && nextchar == []
      ensures optstring != [] && optstring[0] == '-' ==> ordering == ReturnInOrder && r == optstring[1..]
      ensures optstring != [] && optstring[0] == '+' ==> ordering == RequireOrder && r == optstring[1..]
      ensures optstring == [] || (optstring[0] != '-' && optstring[0] != '+') ==>
              r == optstring && ordering == if posixlyCorrect then RequireOrder else Permute
    {
      firstNonopt, lastNonopt, optind, nextchar := 1, 1, 1, "";
      if optstring != [] && optstring[0] == '-' {
        ordering := ReturnInOrder;
        return optstring[1..];
      } else if optstring != [] && optstring[0] == '+' {
        ordering := RequireOrder;
        return optstring[1..];
      } else {
        ordering := if posixlyCorrect then RequireOrder else Permute;
        return optstring;
      }
    }

    /** `exchange`. */
    method Exchange()
      requires firstNonopt <= lastNonopt <= optind <= argv.Length
      modifies argv, this`firstNonopt, this`lastNonopt
      ensures argv[..] == Rotated(old(argv[..]), old(firstNonopt), old(lastNonopt), optind)
      ensures firstNonopt == old(firstNonopt) + (optind - old(lastNonopt)) && lastNonopt == optind
    {
      Rotate(argv, firstNonopt, lastNonopt, optind);
      firstNonopt := firstNonopt + (optind - lastNonopt);
      lastNonopt := optind;
    }

    // ----- one option -----

    /** The effects of a call besides moving on. */
    twostate predicate Reports(r: Report, code: int)
      reads this
    {
      code == r.code && optarg == r.optarg
      && optopt == (if r.optopt.Some? then r.optopt.value else old(optopt))
      && longind == (if r.longind.Some? then r.longind.value else old(longind))
      && flags == (if r.flag.Some? then old(flags)[r.flag.value.0 := r.flag.value.1] else old(flags))
    }

    /** Only how far the scan has got and what it reports may change. */
    twostate predicate MovedOn(d: Decoded, code: int)
      reads this
    {
      Reports(d.report, code) && nextchar == d.next && optind == old(optind) + d.used
      && firstNonopt == old(firstNonopt) && lastNonopt == old(lastNonopt) && ordering == old(ordering)
    }

    /** The next short option character. */
    method ShortOption(cfg: Config) returns (code: int)
      requires Valid() && nextchar != [] && optarg == None
      modifies this
      ensures MovedOn(DecodeShort(cfg, old(Rest()), old(nextchar)), code)
    {
      var c := nextchar[0];
      nextchar := nextchar[1..];
      var temp := MyIndex(cfg.optstring, c);
      if nextchar == [] {
        optind := optind + 1;
      }
      if temp == |cfg.optstring| || c == ':' {
        optopt := c;
        return QUESTION;
      }
      code := c as int;
      if ColonAt(cfg.optstring, temp + 1) {
        if ColonAt(cfg.optstring, temp + 2) {
          if nextchar != [] {
            optarg := Some(nextchar);
            optind := optind + 1;
          }
        } else if nextchar != [] {
          optarg := Some(nextchar);
          optind := optind + 1;
        } else if optind == argv.Length {
          optopt := c;
          code := MissingCode(cfg);
        } else {
          optarg := Some(argv[optind]);
          optind := optind + 1;
        }
        nextchar := "";
      }
    }

    /** A long option that has been found. */
    method TakeLong(cfg: Config, o: LongOpt, i: nat, n: nat) returns (code: int)
      requires Valid() && nextchar != [] && optarg == None && n <= |nextchar|
      modifies this
      ensures MovedOn(DecodeMatch(cfg, o, i, old(Rest()), old(nextchar), n), code)
    {
      optind := optind + 1;
      var arg := nextchar;
      nextchar := "";
      if n < |arg| {
        if o.hasArg == 0 {
          return QUESTION;
        }
        optarg := Some(arg[n + 1..]);
      } else if o.hasArg == 1 {
        if optind == argv.Length {
          return MissingCode(cfg);
        }
        optarg := Some(argv[optind]);
        optind := optind + 1;
      }
      longind := i;
      if o.flag.Some? {
        flags := flags[o.flag.value := o.val];
        return 0;
      }
      return o.val;
    }

    /** The current option, long or short. */
    method DecodeElement(cfg: Config) returns (code: int)
      requires Valid() && nextchar != [] && optarg == None
      modifies this
      ensures MovedOn(Decode(cfg, old(Rest()), old(nextchar)), code)
    {
      hide DecodeShort, DecodeMatch, Lookup, NameEnd;
      if TriesLong(cfg, argv[optind]) {
        var n := FindNameEnd(nextchar);
        var found := FindLong(cfg.longopts.value, nextchar[..n]);
        if found.Match? {
          code := TakeLong(cfg, cfg.longopts.value[found.index], found.index, n);
          return;
        }
        if found.Ambiguous? || !cfg.longOnly || argv[optind][1] == '-' || nextchar[0] !in cfg.optstring {
          nextchar := "";
          optind := optind + 1;
          return QUESTION;
        }
      }
      code := ShortOption(cfg);
    }

    // ----- one call -----

    /** Options met since the last non-options move in front of them. */
    method MoveOptions(ghost o: seq<string>, ghost marks: seq<bool>)
      requires Split(argv[..], o, marks, firstNonopt, lastNonopt, optind)
      modifies argv, this`firstNonopt, this`lastNonopt
      ensures Split(argv[..], o, marks, firstNonopt, optind, optind)
    {
      hide Split, Rotated;
      SplitFacts(argv[..], o, marks, firstNonopt, lastNonopt, optind);
      if firstNonopt != lastNonopt && lastNonopt != optind {
        SplitExchange(argv[..], o, marks, firstNonopt, lastNonopt, optind);
        Exchange();
      } else if lastNonopt != optind {
        SplitEmpty(argv[..], o, marks, firstNonopt, optind);
        firstNonopt := optind;
      }
    }

    /** The part of a call that permutes; then the next non-options are passed over. */
    method SkipNonOptions(ghost o: seq<string>, ghost marks: seq<bool>) returns (ghost n: nat)
      requires Valid() && Split(argv[..], o, marks, firstNonopt, lastNonopt, optind)
      modifies argv, this`firstNonopt, this`lastNonopt, this`optind
      ensures optind == lastNonopt == old(optind) + n <= argv.Length
      ensures Split(argv[..], o, marks + Marks(n, false), firstNonopt, lastNonopt, optind)
      ensures forall k :: old(optind) <= k < optind ==> IsNonOption(o[k])
      ensures optind < argv.Length ==> argv[optind] == o[optind] && !IsNonOption(argv[optind])
    {
      hide Split, Rotated;
      ghost var start := optind;
      MoveOptions(o, marks);
      SplitFacts(argv[..], o, marks, firstNonopt, start, start);
      ghost var s := argv[..];
      while optind < argv.Length && IsNonOption(argv[optind])
        invariant start <= optind <= argv.Length && argv[..] == s
        invariant forall k :: start <= k < optind ==> IsNonOption(argv[k])
        modifies this`optind
      {
        optind := optind + 1;
      }
      n := optind - start;
      SplitSkip(argv[..], o, marks, firstNonopt, start, n);
      lastNonopt := optind;
      assert forall k :: start <= k < argv.Length ==> argv[k] == argv[..][k];
    }

    /** All options in front, in their order, and everything else behind them, in its order. */
    ghost predicate Sorted(o: seq<string>, marks: seq<bool>)
      reads this, argv
    {
      |o| >= 1 && |marks| == |o| - 1
      && argv[..] == [o[0]] + Select(o[1..], marks, true) + Select(o[1..], marks, false)
      && optind == 1 + |Select(o[1..], marks, true)|
    }

    /** The end of the scan: `optind` backs over the non-options. */
    method Finish(ghost o: seq<string>, ghost marks: seq<bool>)
      requires Split(argv[..], o, marks, firstNonopt, lastNonopt, optind) && lastNonopt == optind == argv.Length
      modifies this`optind
      ensures Sorted(o, marks)
    {
      SplitDone(argv[..], o, marks, firstNonopt);
      if firstNonopt != lastNonopt {
        optind := firstNonopt;
      }
    }

    /** `--` is taken like an option without a name, and everything behind it like non-options. */
    method DashDash(ghost o: seq<string>, ghost marks: seq<bool>)
      requires Split(argv[..], o, marks, firstNonopt, lastNonopt, optind) && lastNonopt == optind < argv.Length
      modifies argv, this`optind, this`firstNonopt, this`lastNonopt
      ensures old(optind) < argv.Length && optind == lastNonopt == argv.Length
      ensures Split(argv[..], o, marks + Marks(1, true) + Marks(argv.Length - old(optind) - 1, false), firstNonopt, lastNonopt, optind)
    {
      hide Split, Rotated, Marks;
      SplitFacts(argv[..], o, marks, firstNonopt, lastNonopt, optind);
      SplitTake(argv[..], o, marks, firstNonopt, lastNonopt, optind, 1);
      ghost var taken := marks + Marks(1, true);
      optind := optind + 1;
      if firstNonopt != lastNonopt && lastNonopt != optind {
        SplitExchange(argv[..], o, taken, firstNonopt, lastNonopt, optind);
        Exchange();
      } else if firstNonopt == lastNonopt {
        SplitEmpty(argv[..], o, taken, firstNonopt, optind);
        firstNonopt := optind;
      }
      SplitSkip(argv[..], o, taken, firstNonopt, optind, argv.Length - optind);
      lastNonopt := argv.Length;
      optind := argv.Length;
    }

    /** A call in the permuting mode, once it is between two elements. */
    method NextElement(cfg: Config, ghost o: seq<string>, ghost marks: seq<bool>)
      returns (done: bool, ghost more: seq<bool>)
      requires Valid() && nextchar == [] && Split(argv[..], o, marks, firstNonopt, lastNonopt, optind)
      modifies argv, this`firstNonopt, this`lastNonopt, this`optind, this`nextchar
      ensures done ==> Scan(cfg, o[old(optind)..], []) == Scanned([], more) && Sorted(o, marks + more)
      ensures !done ==> Valid() && Split(argv[..], o, marks + more, firstNonopt, lastNonopt, optind)
      ensures !done ==>
              optind < |o| && |o[optind]| >= 2 && nextchar != []
              && Scan(cfg, o[old(optind)..], [])
                 == Scanned(Scan(cfg, o[optind..], nextchar).reports, more + Scan(cfg, o[optind..], nextchar).marks)
    {
      hide Split, Rotated, Scan, Decode, Select;
      SplitFacts(argv[..], o, marks, firstNonopt, lastNonopt, optind);
      ghost var rest := o[optind..];
      ghost var n := SkipNonOptions(o, marks);
      SplitFacts(argv[..], o, marks + Marks(n, false), firstNonopt, lastNonopt, optind);
      ScanSkip(cfg, rest, n);
      assert rest[n..] == o[optind..];
      more := Marks(n, false);
      if optind == argv.Length {
        ScanEnd(cfg, o[optind..]);
        assert more + [] == more;
        Finish(o, marks + more);
        return true, more;
      }
      if argv[optind] == "--" {
        ScanEnd(cfg, o[optind..]);
        ghost var tail := Marks(1, true) + Marks(argv.Length - optind - 1, false);
        Assoc(marks + more, Marks(1, true), Marks(argv.Length - optind - 1, false));
        Assoc(marks, more, tail);
        DashDash(o, marks + more);
        more := more + tail;
        Finish(o, marks + more);
        return true, more;
      }
      nextchar := Start(cfg, argv[optind]);
      ScanStart(cfg, o[optind..]);
      return false, more;
    }

    /** A call in the permuting mode, after the first. It reports what the scan that never permutes reports
        next, and leaves the rest of that scan to be reported. */
    method ResumePermuting(cfg: Config, ghost o: seq<string>, ghost marks: seq<bool>)
      returns (code: int, done: bool, ghost r: Report, ghost more: seq<bool>)
      requires Valid() && ordering == Permute && optarg == None
      requires Split(argv[..], o, marks, firstNonopt, lastNonopt, optind)
      modifies this, argv
      ensures ordering == Permute && |o| == argv.Length
      ensures done ==> code == EOF_CODE && Sorted(o, marks + more)
                       && Scan(cfg, o[old(optind)..], old(nextchar)) == Scanned([], more)
      ensures !done ==> Reports(r, code) && Valid() && Split(argv[..], o, marks + more, firstNonopt, lastNonopt, optind)
                        && Scan(cfg, o[old(optind)..], old(nextchar))
                           == Scanned([r] + Scan(cfg, o[optind..], nextchar).reports, more + Scan(cfg, o[optind..], nextchar).marks)
    {
      hide Split, Scan, Decode, Select, Sorted, Start;
      SplitFacts(argv[..], o, marks, firstNonopt, lastNonopt, optind);
      r, more, done := Plainly(0), [], false;
      if nextchar == [] {
        done, more := NextElement(cfg, o, marks);
        if done {
          return EOF_CODE, true, r, more;
        }
      } else {
        assert marks + [] == marks;
      }
      ghost var taken;
      ghost var here, from := optind, nextchar;
      code, r, taken := TakeOption(cfg, o, marks + more);
      Assoc(marks, more, taken);
      Assoc(more, taken, Scan(cfg, o[optind..], nextchar).marks);
      more := more + taken;
    }

    /** One option, without moving anything. */
    method TakeOption(cfg: Config, ghost o: seq<string>, ghost marks: seq<bool>)
      returns (code: int, ghost r: Report, ghost taken: seq<bool>)
      requires Valid() && nextchar != [] && optarg == None
      requires Split(argv[..], o, marks, firstNonopt, lastNonopt, optind)
      modifies this
      ensures ordering == old(ordering) && optind <= |o| == argv.Length
      ensures nextchar != [] ==> optind < |o| && |o[optind]| >= 2
      ensures Reports(r, code) && Valid() && Split(argv[..], o, marks + taken, firstNonopt, lastNonopt, optind)
      ensures Scan(cfg, o[old(optind)..], old(nextchar))
           == Scanned([r] + Scan(cfg, o[optind..], nextchar).reports, taken + Scan(cfg, o[optind..], nextchar).marks)
    {
      hide Split, Scan, Decode, Select, Start;
      ghost var at, rest := optind, argv[optind..];
      SplitFacts(argv[..], o, marks, firstNonopt, lastNonopt, optind);
      assert rest == o[optind..];
      ghost var d := Decode(cfg, rest, nextchar);
      ScanOption(cfg, rest, nextchar);
      code := DecodeElement(cfg);
      r, taken := d.report, Marks(d.used, true);
      SplitTake(argv[..], o, marks, firstNonopt, lastNonopt, at, d.used);
      assert rest[d.used..] == o[optind..];
      SplitFacts(argv[..], o, marks + taken, firstNonopt, lastNonopt, optind);
    }

    // ----- the other orderings -----

    /** A call that does not permute: it stops at the first non-option, or hands it out as the argument of an
        option with code 1. */
    method ResumeInOrder(cfg: Config) returns (code: int, done: bool)
      requires Valid() && ordering != Permute && optarg == None && firstNonopt == lastNonopt
      modifies this
      ensures old(optind) <= argv.Length && ordering == old(ordering)
      ensures var rest := old(Rest());
              if old(nextchar) != [] || (rest != [] && !IsNonOption(rest[0]) && rest[0] != "--") then
                !done && var d := Decode(cfg, rest, if old(nextchar) == [] then Start(cfg, rest[0]) else old(nextchar));
                Reports(d.report, code) && optind == old(optind) + d.used && nextchar == d.next
                && Valid() && firstNonopt == lastNonopt
              else if rest != [] && rest[0] != "--" && ordering == ReturnInOrder then
                !done && Reports(HandedOut(rest[0]), code) && optind == old(optind) + 1 && nextchar == []
                && Valid() && firstNonopt == lastNonopt
              else
                done && code == EOF_CODE && optind == old(optind) + (if rest != [] && rest[0] == "--" then 1 else 0)
    {
      hide Decode, Start;
      done := false;
      if nextchar == [] {
        if optind != argv.Length && argv[optind] == "--" {
          optind := optind + 1;
          firstNonopt := optind;
          lastNonopt := argv.Length;
          optind := argv.Length;
        }
        if optind == argv.Length {
          if firstNonopt != lastNonopt {
            optind := firstNonopt;
          }
          return EOF_CODE, true;
        }
        if IsNonOption(argv[optind]) {
          if ordering == RequireOrder {
            return EOF_CODE, true;
          }
          optarg := Some(argv[optind]);
          optind := optind + 1;
          return 1, false;
        }
        nextchar := Start(cfg, argv[optind]);
      }
      code := DecodeElement(cfg);
    }

    /** The options as the first call sees them, and whether non-options are handed out. */
    function FirstConfig(cfg: Config): Config {
      if cfg.optstring != [] && IsSign(cfg.optstring[0]) then cfg.(optstring := cfg.optstring[1..]) else cfg
    }

    predicate HandsOut(cfg: Config) {
      cfg.optstring != [] && cfg.optstring[0] == '-'
    }

    /** A call in order, seen from the scan of what is left: it reports what that scan reports next. */
    method ResumeOrdered(now: Config, later: Config) returns (code: int, done: bool, ghost r: Report)
      requires Valid() && ordering != Permute && optarg == None && firstNonopt == lastNonopt
      modifies this
      ensures ordering == old(ordering) && old(optind) <= argv.Length && old(optind) <= optind
      ensures old(nextchar) != [] ==> old(optind) < argv.Length && |argv[old(optind)]| >= 2
      ensures done ==> code == EOF_CODE && InOrder(now, later, ordering == ReturnInOrder, argv[old(optind)..], old(nextchar))
                                           == Ordered([], optind - old(optind))
      ensures !done ==>
              Valid() && firstNonopt == lastNonopt && old(optind) <= optind && Reports(r, code)
              && var t := InOrder(later, later, ordering == ReturnInOrder, argv[optind..], nextchar);
                 InOrder(now, later, ordering == ReturnInOrder, argv[old(optind)..], old(nextchar))
                 == Ordered([r] + t.reports, optind - old(optind) + t.used)
    {
      hide Decode, Start, InOrder;
      ghost var at, next, rest := optind, nextchar, argv[optind..];
      code, done := ResumeInOrder(now);
      r := Plainly(0);
      if next != [] || (rest != [] && !IsNonOption(rest[0]) && rest[0] != "--") {
        OrderedOption(now, later, ordering == ReturnInOrder, rest, next);
        r := Decode(now, rest, if next == [] then Start(now, rest[0]) else next).report;
        assert rest[optind - at..] == argv[optind..];
      } else {
        OrderedOther(now, later, ordering == ReturnInOrder, rest);
        if !done {
          r := HandedOut(rest[0]);
          assert rest[1..] == argv[optind..];
        }
      }
    }

    /** Nothing asks for another ordering. */
    predicate Permutes(cfg: Config) {
      !posixlyCorrect && (cfg.optstring == [] || (cfg.optstring[0] != '-' && cfg.optstring[0] != '+'))
    }

    function OrderFor(cfg: Config): Ordering {
      if Permutes(cfg) then Permute else if HandsOut(cfg) then ReturnInOrder else RequireOrder
    }

    /** Before the first call, or between calls: the elements `o` as they were given, and which of those scanned so far
        were options. */
    ghost predicate Between(cfg: Config, o: seq<string>, marks: seq<bool>)
      reads this, argv
    {
      if optind == 0 then argv[..] == o && marks == []
      else Valid() && ordering == OrderFor(cfg)
           && if Permutes(cfg) then Split(argv[..], o, marks, firstNonopt, lastNonopt, optind)
              else argv[..] == o && firstNonopt == lastNonopt
    }

    /** What a call does first; only the first one initializes. */
    method Begin(cfg: Config, ghost o: seq<string>, ghost marks: seq<bool>) returns (now: Config)
      requires argv.Length >= 1 && Between(cfg, o, marks)
      modifies this`optarg, this`optind, this`nextchar, this`firstNonopt, this`lastNonopt, this`ordering
      ensures optarg == None && ordering == OrderFor(cfg) && Valid() && |o| == argv.Length
      ensures if Permutes(cfg) then now == cfg && Split(argv[..], o, marks, firstNonopt, lastNonopt, optind)
              else argv[..] == o && firstNonopt == lastNonopt
      ensures optind == if old(optind) == 0 then 1 else old(optind)
      ensures nextchar == if old(optind) == 0 then [] else old(nextchar)
      ensures now == if old(optind) == 0 then FirstConfig(cfg) else cfg
    {
      optarg := None;
      now := cfg;
      if optind == 0 {
        var s := Initialize(cfg.optstring);
        now := cfg.(optstring := s);
        SplitStart(o);
      }
    }

    /** `_getopt_internal`, from the first call on. Permuting, it reports what the scan of the elements as given
        reports next; otherwise what the scan in order reports next, with the sign in front of the options dropped
        on the first call only. */
    method GetoptInternal(cfg: Config, ghost o: seq<string>, ghost marks: seq<bool>)
      returns (code: int, done: bool, ghost r: Report, ghost more: seq<bool>)
      requires argv.Length >= 1 && Between(cfg, o, marks)
      modifies this, argv
      ensures ordering == OrderFor(cfg) && |o| == argv.Length
      ensures var at, next := if old(optind) == 0 then 1 else old(optind), if old(optind) == 0 then [] else old(nextchar);
              1 <= at <= |o| && (next != [] ==> at < |o| && |o[at]| >= 2)
              && (done ==> code == EOF_CODE) && (!done ==> optind <= |o| && (nextchar != [] ==> optind < |o| && |o[optind]| >= 2)
                                                           && Reports(r, code) && Between(cfg, o, marks + more))
      ensures Permutes(cfg) ==>
              var at, next := if old(optind) == 0 then 1 else old(optind), if old(optind) == 0 then [] else old(nextchar);
              (done ==> Sorted(o, marks + more) && Scan(cfg, o[at..], next) == Scanned([], more))
              && (!done ==>
                    var s := Scan(cfg, o[optind..], nextchar);
                    Scan(cfg, o[at..], next) == Scanned([r] + s.reports, more + s.marks))
      ensures !Permutes(cfg) ==>
              var first := old(optind) == 0;
              var now, at, next := if first then FirstConfig(cfg) else cfg, if first then 1 else old(optind),
                                   if first then [] else old(nextchar);
              argv[..] == o && at <= optind
              && (done ==> InOrder(now, cfg, HandsOut(cfg), o[at..], next) == Ordered([], optind - at))
              && (!done ==>
                    var t := InOrder(cfg, cfg, HandsOut(cfg), o[optind..], nextchar);
                    InOrder(now, cfg, HandsOut(cfg), o[at..], next) == Ordered([r] + t.reports, optind - at + t.used))
    {
      hide Scan, Decode, Select, Sorted, Start, InOrder, Split;
      var now := Begin(cfg, o, marks);
      if ordering == Permute {
        SplitFacts(argv[..], o, marks, firstNonopt, lastNonopt, optind);
        code, done, r, more := ResumePermuting(now, o, marks);
        if !done {
          SplitFacts(argv[..], o, marks + more, firstNonopt, lastNonopt, optind);
        }
      } else {
        more := [];
        code, done, r := ResumeOrdered(now, cfg);
      }
    }

    // ----- whole runs -----

    /** Calling `getopt` until it returns `EOF` when nothing is permuted: the calls come to an end, report what
        the scan in order reports, leave `argv` alone, and `optind` is where that scan stops. */
    method ScanAllInOrder(cfg: Config) returns (seen: seq<(int, Option<string>)>)
      requires argv.Length >= 1 && !Permutes(cfg) && optind == 0
      modifies this, argv
      ensures argv[..] == old(argv[..])
      ensures var s := InOrder(FirstConfig(cfg), cfg, HandsOut(cfg), argv[1..], []);
              seen == Seen(s.reports) && optind == 1 + s.used
    {
      hide InOrder;
      seen := [];
      ghost var all := InOrder(FirstConfig(cfg), cfg, HandsOut(cfg), argv[1..], []);
      ghost var left, used, o := all.reports, 0, argv[..];
      ghost var marks: seq<bool> := [];
      while true
        invariant argv[..] == o && Between(cfg, o, marks) && !Permutes(cfg)
        invariant if optind == 0 then left == all.reports && used == 0
                  else optind == 1 + used && used <= all.used && optind <= |o| && (nextchar != [] ==> optind < |o| && |o[optind]| >= 2)
                       && InOrder(cfg, cfg, HandsOut(cfg), o[optind..], nextchar) == Ordered(left, all.used - used)
        invariant seen + Seen(left) == Seen(all.reports)
        decreases |left|
      {
        var code, done;
        ghost var r, more;
        code, done, r, more := GetoptInternal(cfg, o, marks);
        if done {
          assert seen + [] == seen;
          return;
        }
        marks := marks + more;
        left, used := InOrder(cfg, cfg, HandsOut(cfg), o[optind..], nextchar).reports, optind - 1;
        Assoc(seen, [(code, optarg)], Seen(left));
        seen := seen + [(code, optarg)];
      }
    }

    /** Calling `getopt` until it returns `EOF`, as `main` does. Whatever the arguments, the calls come to an end;
        what they report is what a scan reports that leaves `argv` alone; and in the end the options stand in
        front of everything else, both in their old order, with `optind` between them. */
    method ScanAll(cfg: Config, ghost o: seq<string>) returns (seen: seq<(int, Option<string>)>)
      requires argv.Length >= 1 && Permutes(cfg) && optind == 0 && argv[..] == o
      modifies this, argv
      ensures seen == Seen(Scan(cfg, o[1..], []).reports)
      ensures Sorted(o, Scan(cfg, o[1..], []).marks)
      ensures multiset(argv[..]) == multiset(o)
    {
      hide Scan, Split, Select, Sorted;
      seen := [];
      ghost var all := Scan(cfg, o[1..], []);
      ghost var marks: seq<bool> := [];
      ghost var left, tail := all.reports, all.marks;
      assert [] + all.marks == all.marks;
      while true
        invariant Permutes(cfg)
        invariant Between(cfg, o, marks)
        invariant if optind == 0 then left == all.reports && tail == all.marks
                  else optind <= |o| && (nextchar != [] ==> optind < |o| && |o[optind]| >= 2)
                       && Scan(cfg, o[optind..], nextchar) == Scanned(left, tail)
        invariant seen + Seen(left) == Seen(all.reports) && marks + tail == all.marks
        decreases |left|
      {
        var code, done;
        ghost var r, more;
        code, done, r, more := GetoptInternal(cfg, o, marks);
        if done {
          SortedPermutes(o, marks + more);
          return;
        }
        SplitFacts(argv[..], o, marks + more, firstNonopt, lastNonopt, optind);
        ghost var s := Scan(cfg, o[optind..], nextchar);
        Assoc(seen, [(code, optarg)], Seen(s.reports));
        Assoc(marks, more, s.marks);
        seen := seen + [(code, optarg)];
        marks := marks + more;
        left, tail := s.reports, s.marks;
      }
    }

    lemma SortedPermutes(o: seq<string>, marks: seq<bool>)
      requires Sorted(o, marks)
      ensures multiset(argv[..]) == multiset(o)
    {
      SelectPermutes(o[1..], marks);
      assert o == [o[0]] + o[1..];
      assert argv[..] == [o[0]] + (Select(o[1..], marks, true) + Select(o[1..], marks, false));
    }
  }

  /** Codes and arguments, as a caller sees them. */
  function Seen(rs: seq<Report>): seq<(int, Option<string>)> {
    if rs == [] then [] else [(rs[0].code, rs[0].optarg)] + Seen(rs[1..])
  }

  /** Stepping over the punctuation of an option changes nothing about what it stands for. */
  lemma ScanStart(cfg: Config, rest: seq<string>)
    requires rest != [] && !IsNonOption(rest[0]) && rest[0] != "--"
    ensures Scan(cfg, rest, []) == Scan(cfg, rest, Start(cfg, rest[0]))
  {}
}

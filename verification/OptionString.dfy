/** A leading sign of the option string: the scanner drops it on the first call only. */
module OptionString {
  import opened Options
  import opened OptionScan

  /** `-` and `+` choose an ordering when they stand first. */
  predicate IsSign(c: char) {
    c == '-' || c == '+'
  }

  /** The options with the sign still in front of them, as every call but the first sees them. */
  function Raw(cfg: Config, sign: char): Config {
    cfg.(optstring := [sign] + cfg.optstring)
  }

  predicate WantsColons(cfg: Config) {
    cfg.optstring != [] && cfg.optstring[0] == ':'
  }

  // ----- short options -----

  /** What an option string makes of a letter where it stands. */
  datatype Effect = Unknown | Alone | Attached | Following | Missing

  function EffectOf(s: string, rest: seq<string>, next: string): Effect
    requires rest != [] && next != []
  {
    var i := IndexOf(s, next[0]);
    if i == |s| || next[0] == ':' then Unknown
    else if !ColonAt(s, i + 1) then Alone
    else if next[1..] != [] then Attached
    else if ColonAt(s, i + 2) then Alone
    else if |rest| == 1 then Missing
    else Following
  }

  function WithEffect(e: Effect, missing: int, rest: seq<string>, next: string): Decoded
    requires rest != [] && next != [] && (e == Following ==> |rest| > 1)
  {
    var c, tail := next[0], next[1..];
    var last := if tail == [] then 1 else 0;
    match e
    case Unknown => Decoded(Bad(QUESTION, c), tail, last)
    case Alone => Decoded(WithArg(c, None), tail, last)
    case Attached => Decoded(WithArg(c, Some(tail)), "", 1)
    case Following => Decoded(WithArg(c, Some(rest[1])), "", 2)
    case Missing => Decoded(Bad(missing, c), "", 1)
  }

  lemma ByEffect(cfg: Config, rest: seq<string>, next: string)
    requires rest != [] && next != []
    ensures DecodeShort(cfg, rest, next) == WithEffect(EffectOf(cfg.optstring, rest, next), MissingCode(cfg), rest, next)
  {}

  /** How many colons follow the letter at `i`: none, one for an argument, two for an optional one. */
  function Colons(s: string, i: nat): nat {
    if !ColonAt(s, i + 1) then 0 else if !ColonAt(s, i + 2) then 1 else 2
  }

  /** How many colons the option string begins with. Behind a sign they are those of the sign. */
  function Leading(s: string): nat {
    if !ColonAt(s, 0) then 0 else if !ColonAt(s, 1) then 1 else 2
  }

  predicate Listed(s: string, c: char) {
    IndexOf(s, c) < |s|
  }

  function ColonsOf(s: string, c: char): nat {
    Colons(s, IndexOf(s, c))
  }

  /** The sign makes no difference to a letter. It does to itself, unless it is also listed behind the front and
      with colons that come to the same for this element; and it does to any letter whose argument is missing,
      when the options begin with a colon. */
  predicate SameLetter(cfg: Config, sign: char, rest: seq<string>, next: string)
    requires rest != [] && next != []
  {
    var s, c, tail := cfg.optstring, next[0], next[1..];
    var own, lead := ColonsOf(s, c), Leading(s);
    if c == ':' then true
    else if c != sign then !(Listed(s, c) && own == 1 && lead > 0 && tail == [] && |rest| == 1)
    else if !Listed(s, c) then lead == 1 && tail == [] && |rest| == 1
    else if tail != [] then (lead == 0 <==> own == 0)
    else (lead == 1 <==> own == 1) && !(own == 1 && |rest| == 1)
  }

  /** The effect of a letter, by its colons. */
  lemma EffectByColons(s: string, rest: seq<string>, next: string)
    requires rest != [] && next != []
    ensures EffectOf(s, rest, next) ==
            if !Listed(s, next[0]) || next[0] == ':' then Unknown
            else if ColonsOf(s, next[0]) == 0 then Alone
            else if next[1..] != [] then Attached
            else if ColonsOf(s, next[0]) == 2 then Alone
            else if |rest| == 1 then Missing
            else Following
  {}

  /** In front of the options the sign is a letter with their leading colons; the other letters keep theirs. */
  lemma RawColons(s: string, sign: char, c: char)
    requires IsSign(sign)
    ensures c == sign ==> Listed([sign] + s, c) && ColonsOf([sign] + s, c) == Leading(s)
    ensures c != sign ==> Listed([sign] + s, c) == Listed(s, c) && ColonsOf([sign] + s, c) == ColonsOf(s, c)
  {
    var raw := [sign] + s;
    assert raw[1..] == s;
    if c != sign {
      assert IndexOf(raw, c) == 1 + IndexOf(s, c);
    }
  }

  lemma ShortSame(cfg: Config, sign: char, rest: seq<string>, next: string)
    requires rest != [] && next != [] && IsSign(sign)
    ensures DecodeShort(Raw(cfg, sign), rest, next) == DecodeShort(cfg, rest, next) <==> SameLetter(cfg, sign, rest, next)
  {
    hide EffectOf, DecodeShort, IndexOf, Colons, Listed;
    ByEffect(cfg, rest, next);
    ByEffect(Raw(cfg, sign), rest, next);
    EffectByColons(cfg.optstring, rest, next);
    EffectByColons([sign] + cfg.optstring, rest, next);
    RawColons(cfg.optstring, sign, next[0]);
    SomeColons(cfg.optstring, IndexOf(cfg.optstring, next[0]));
  }

  lemma SomeColons(s: string, i: nat)
    ensures Colons(s, i) <= 2 && Leading(s) <= 2
  {}

  // ----- any option -----

  /** A long option whose argument is missing. */
  predicate LongMissing(cfg: Config, rest: seq<string>, next: string)
    requires cfg.longopts.Some? && rest != []
  {
    var n := NameEnd(next);
    var found := Lookup(cfg.longopts.value, next[..n]);
    found.Match? && n == |next| && cfg.longopts.value[found.index].hasArg == 1 && |rest| == 1
  }

  /** The sign makes no difference to an element: it does not decide whether the element is a long option or a
      short one, and it makes none to the letter or the missing argument that is found. */
  predicate SameOption(cfg: Config, sign: char, rest: seq<string>, next: string)
    requires rest != [] && |rest[0]| >= 2 && next != []
  {
    if !TriesLong(cfg, rest[0]) then SameLetter(cfg, sign, rest, next)
    else if !TriesLong(Raw(cfg, sign), rest[0]) then false
    else if Lookup(cfg.longopts.value, next[..NameEnd(next)]).NoMatch? && cfg.longOnly && rest[0][1] != '-' then
      if next[0] in cfg.optstring then SameLetter(cfg, sign, rest, next) else next[0] != sign
    else !(LongMissing(cfg, rest, next) && WantsColons(cfg))
  }

  /** `next` is what is left of `elem` behind its first character. */
  predicate Within(elem: string, next: string) {
    next != [] && |next| < |elem| && elem[|elem| - |next|..] == next
  }

  /** A call decodes its option as the first call would if and only if that condition holds. */
  lemma DecodeSame(cfg: Config, sign: char, rest: seq<string>, next: string)
    requires rest != [] && |rest[0]| >= 2 && Within(rest[0], next) && IsSign(sign)
    ensures Decode(Raw(cfg, sign), rest, next) == Decode(cfg, rest, next) <==> SameOption(cfg, sign, rest, next)
  {
    hide DecodeShort, SameLetter, Lookup, NameEnd, DecodeMatch;
    var raw := Raw(cfg, sign);
    assert next[0] in raw.optstring <==> next[0] == sign || next[0] in cfg.optstring;
    ShortSame(cfg, sign, rest, next);
    ShortReports(raw, rest, next);
    if TriesLong(cfg, rest[0]) {
      assert !TriesLong(raw, rest[0]) ==> next[0] == sign && next[0] !in cfg.optstring;
      var n := NameEnd(next);
      var found := Lookup(cfg.longopts.value, next[..n]);
      if found.Match? {
        MatchSame(cfg, sign, cfg.longopts.value[found.index], found.index, rest, next, n);
        MatchReports(cfg, cfg.longopts.value[found.index], found.index, rest, next, n);
      }
    }
  }

  /** A short option reports a letter, and never the index of a long option. */
  lemma ShortReports(cfg: Config, rest: seq<string>, next: string)
    requires rest != [] && next != []
    ensures var r := DecodeShort(cfg, rest, next).report;
            r.longind == None && r.flag == None && (r.code == next[0] as int || r.optopt == Some(next[0]))
    ensures next[0] != '?' && DecodeShort(cfg, rest, next).report.optopt == None ==> DecodeShort(cfg, rest, next).report.code != QUESTION
  {}

  lemma MatchReports(cfg: Config, o: LongOpt, i: nat, rest: seq<string>, next: string, n: nat)
    requires rest != [] && n <= |next|
    ensures var r := DecodeMatch(cfg, o, i, rest, next, n).report;
            r.optopt == None && (r.longind == Some(i) || r == Plainly(QUESTION) || r == Plainly(COLON))
  {}

  lemma MatchSame(cfg: Config, sign: char, o: LongOpt, i: nat, rest: seq<string>, next: string, n: nat)
    requires rest != [] && n <= |next| && IsSign(sign)
    ensures DecodeMatch(Raw(cfg, sign), o, i, rest, next, n) == DecodeMatch(cfg, o, i, rest, next, n)
        <==> !(n == |next| && o.hasArg == 1 && |rest| == 1 && WantsColons(cfg))
  {}

  // ----- when it cannot matter -----

  /** An option string that does not begin with a colon behind its sign, and an element without the sign in it. */
  lemma SignUnused(cfg: Config, sign: char, rest: seq<string>, next: string)
    requires rest != [] && |rest[0]| >= 2 && next != [] && IsSign(sign)
    requires !WantsColons(cfg) && next[0] != sign && rest[0][1] != sign
    ensures SameOption(cfg, sign, rest, next)
  {
    hide Lookup, NameEnd, IndexOf;
  }

  // ----- where it does -----

  /** `-+` against the options `a`: unknown, unless the sign of `+a` is taken for a letter. */
  lemma SignTakenForLetter()
    ensures Decode(Config("a", None, false), ["-+"], "+").report.code == QUESTION
    ensures Decode(Raw(Config("a", None, false), '+'), ["-+"], "+").report.code == '+' as int
  {
    assert IndexOf("a", '+') == 1 by {
      assert "a"[1..] == "";
    }
    assert [ '+' ] + "a" == "+a";
  }

  /** `-a` without its argument, against the options `:a:`: the leading colon asks for the code `:`, but behind
      the sign of `+:a:` it is not leading any more, although no sign occurs among the arguments. */
  lemma ColonOverlooked()
    ensures Decode(Config(":a:", None, false), ["-a"], "a").report.code == COLON
    ensures Decode(Raw(Config(":a:", None, false), '+'), ["-a"], "a").report.code == QUESTION
  {
    assert IndexOf(":a:", 'a') == 1 by {
      assert ":a:"[1..] == "a:";
    }
    RawColons(":a:", '+', 'a');
    EffectByColons("+" + ":a:", ["-a"], "a");
    ByEffect(Raw(Config(":a:", None, false), '+'), ["-a"], "a");
  }

  // ----- whole command lines without permuting -----

  /** What is reported up to the end, and how many elements are passed by then. */
  datatype Ordered = Ordered(reports: seq<Report>, used: nat)

  function HandedOut(elem: string): Report {
    Report(1, Some(elem), None, None, None)
  }

  /** Scanning in order, the first call with the options `now` and all further ones with `later`. A non-option is
      handed out, or ends the scan. */
  function InOrder(now: Config, later: Config, handOut: bool, rest: seq<string>, next: string): (s: Ordered)
    requires next != [] ==> rest != [] && |rest[0]| >= 2
    ensures s.used <= |rest|
    decreases |rest|, if next == [] && rest != [] then |rest[0]| + 1 else |next|
  {
    if next == [] && rest == [] then Ordered([], 0)
    else if next == [] && rest[0] == "--" then Ordered([], 1)
    else if next == [] && IsNonOption(rest[0]) then
      if !handOut then Ordered([], 0)
      else
        var s := InOrder(later, later, handOut, rest[1..], []);
        Ordered([HandedOut(rest[0])] + s.reports, 1 + s.used)
    else
      var d := Decode(now, rest, if next == [] then Start(now, rest[0]) else next);
      var s := InOrder(later, later, handOut, rest[d.used..], d.next);
      Ordered([d.report] + s.reports, d.used + s.used)
  }

  /** One option. */
  lemma OrderedOption(now: Config, later: Config, handOut: bool, rest: seq<string>, next: string)
    requires rest != [] && |rest[0]| >= 2 && (next == [] ==> !IsNonOption(rest[0]) && rest[0] != "--")
    ensures var d := Decode(now, rest, if next == [] then Start(now, rest[0]) else next);
            var s := InOrder(later, later, handOut, rest[d.used..], d.next);
            InOrder(now, later, handOut, rest, next) == Ordered([d.report] + s.reports, d.used + s.used)
  {
    hide Decode, Start;
  }

  /** The end, or a non-option. */
  lemma OrderedOther(now: Config, later: Config, handOut: bool, rest: seq<string>)
    requires rest == [] || IsNonOption(rest[0]) || rest[0] == "--"
    ensures InOrder(now, later, handOut, rest, []) ==
            if rest == [] then Ordered([], 0)
            else if rest[0] == "--" then Ordered([], 1)
            else if !handOut then Ordered([], 0)
            else var s := InOrder(later, later, handOut, rest[1..], []); Ordered([HandedOut(rest[0])] + s.reports, 1 + s.used)
  {}

  /** No element has the sign behind its first character. */
  predicate SignFree(rest: seq<string>, sign: char) {
    forall e :: e in rest ==> forall i :: 1 <= i < |e| ==> e[i] != sign
  }

  /** The options are such that the sign makes no difference to any letter: it is listed behind the front with as
      many colons as it has in front, and no argument can be missing when the options begin with a colon. */
  predicate Harmless(s: string, sign: char) {
    Listed(s, sign) && ColonsOf(s, sign) == Leading(s)
    && (Leading(s) > 0 ==> forall c :: c in s && c != ':' ==> ColonsOf(s, c) != 1)
  }

  /** Either the elements or the options are such that the sign makes no difference. */
  predicate Immune(cfg: Config, sign: char, rest: seq<string>) {
    (!WantsColons(cfg) && SignFree(rest, sign)) || (cfg.longopts.None? && Harmless(cfg.optstring, sign))
  }

  lemma HarmlessLetter(cfg: Config, sign: char, rest: seq<string>, next: string)
    requires rest != [] && next != [] && Harmless(cfg.optstring, sign)
    ensures SameLetter(cfg, sign, rest, next)
  {
    hide Leading;
    if Listed(cfg.optstring, next[0]) {
      assert cfg.optstring[IndexOf(cfg.optstring, next[0])] == next[0];
    }
    SomeColons(cfg.optstring, IndexOf(cfg.optstring, next[0]));
  }

  /** Then dropping the sign once is as good as dropping it on every call. */
  lemma {:induction false} InOrderSame(cfg: Config, now: Config, sign: char, handOut: bool, rest: seq<string>, next: string)
    requires IsSign(sign) && Immune(cfg, sign, rest) && (now == cfg || now == Raw(cfg, sign))
    requires next != [] ==> rest != [] && |rest[0]| >= 2 && Within(rest[0], next)
    ensures InOrder(now, Raw(cfg, sign), handOut, rest, next) == InOrder(cfg, cfg, handOut, rest, next)
    decreases |rest|, if next == [] && rest != [] then |rest[0]| + 1 else |next|
  {
    hide Decode, Immune, Within;
    if next == [] && (rest == [] || rest[0] == "--") {
    } else if next == [] && IsNonOption(rest[0]) {
      if handOut {
        ImmuneTail(cfg, rest, sign, 1);
        InOrderSame(cfg, Raw(cfg, sign), sign, handOut, rest[1..], []);
      }
    } else {
      var from := if next == [] then Start(cfg, rest[0]) else next;
      StartWithin(cfg, rest[0]);
      OptionSame(cfg, now, sign, rest, from);
      OrderedOption(now, Raw(cfg, sign), handOut, rest, next);
      OrderedOption(cfg, cfg, handOut, rest, next);
      var d := Decode(cfg, rest, from);
      ImmuneTail(cfg, rest, sign, d.used);
      InOrderSame(cfg, Raw(cfg, sign), sign, handOut, rest[d.used..], d.next);
    }
  }

  lemma ImmuneTail(cfg: Config, rest: seq<string>, sign: char, n: nat)
    requires Immune(cfg, sign, rest) && n <= |rest|
    ensures Immune(cfg, sign, rest[n..])
  {}

  lemma StartWithin(cfg: Config, elem: string)
    ensures !IsNonOption(elem) && elem != "--" ==> Within(elem, Start(cfg, elem))
  {}

  lemma ShortOnly(cfg: Config, sign: char, rest: seq<string>, next: string)
    requires rest != [] && |rest[0]| >= 2 && next != [] && cfg.longopts.None? && SameLetter(cfg, sign, rest, next)
    ensures SameOption(cfg, sign, rest, next)
  {
    hide SameLetter;
  }

  /** One call decodes the same with and without the sign. */
  lemma OptionSame(cfg: Config, now: Config, sign: char, rest: seq<string>, from: string)
    requires IsSign(sign) && Immune(cfg, sign, rest) && (now == cfg || now == Raw(cfg, sign))
    requires rest != [] && |rest[0]| >= 2 && Within(rest[0], from)
    ensures Decode(now, rest, from) == Decode(cfg, rest, from)
    ensures var d := Decode(cfg, rest, from); d.used == 0 ==> Within(rest[0], d.next)
  {
    hide SameOption, TriesLong, Decode, Harmless, SameLetter;
    if cfg.longopts.None? && Harmless(cfg.optstring, sign) {
      HarmlessLetter(cfg, sign, rest, from);
      assert SameOption(cfg, sign, rest, from) by {
        ShortOnly(cfg, sign, rest, from);
      }
    } else {
      assert rest[0] in rest && from[0] == rest[0][|rest[0]| - |from|];
      SignUnused(cfg, sign, rest, from);
    }
    DecodeSame(cfg, sign, rest, from);
    var d := Decode(cfg, rest, from);
    assert d.used == 0 ==> d.next == from[1..] && |d.next| == |from| - 1;
  }

  /** Otherwise it is not: of `-a -+` with the options `+a` the second element is reported as a letter. */
  lemma InOrderDiffers()
    ensures var cfg := Config("a", None, false);
            InOrder(cfg, Raw(cfg, '+'), false, ["-a", "-+"], []) != InOrder(cfg, cfg, false, ["-a", "-+"], [])
  {
    hide Decode, InOrder;
    var cfg := Config("a", None, false);
    var rest := ["-a", "-+"];
    assert rest[1..] == ["-+"] && "-a"[1..] == "a" && "-+"[1..] == "+";
    LetterA(rest);
    OrderedOption(cfg, Raw(cfg, '+'), false, rest, []);
    OrderedOption(cfg, cfg, false, rest, []);
    OrderedOption(Raw(cfg, '+'), Raw(cfg, '+'), false, ["-+"], []);
    OrderedOption(cfg, cfg, false, ["-+"], []);
    SignTakenForLetter();
    assert Start(cfg, "-a") == "a" && Start(cfg, "-+") == "+" && Start(Raw(cfg, '+'), "-+") == "+";
    var r, s := InOrder(cfg, Raw(cfg, '+'), false, rest, []), InOrder(cfg, cfg, false, rest, []);
    assert r.reports[1] == Decode(Raw(cfg, '+'), ["-+"], "+").report;
    assert s.reports[1] == Decode(cfg, ["-+"], "+").report;
  }

  /** The letter `a` without an argument. */
  lemma LetterA(rest: seq<string>)
    requires rest == ["-a", "-+"]
    ensures Decode(Config("a", None, false), rest, "a") == Decoded(WithArg('a', None), "", 1)
  {
    assert "a"[1..] == "";
    assert IndexOf("a", 'a') == 0;
  }

  // ----- exactly when it matters -----

  /** An element that begins with `-:` is scanned in two calls: `:` is no option, and what follows is decoded with the
      options as later calls see them. */
  lemma SecondCall(cfg: Config, later: Config, c: char, tail: string, more: seq<string>)
    requires cfg.longopts.None? && later.longopts.None?
    ensures var rest := [['-', ':', c] + tail] + more;
            var s := InOrder(cfg, later, false, rest, []);
            |s.reports| >= 2 && s.reports[1] == DecodeShort(later, rest, [c] + tail).report
  {
    hide InOrder, DecodeShort;
    var elem := ['-', ':', c] + tail;
    var rest := [elem] + more;
    assert elem[1..] == [':', c] + tail && ([':', c] + tail)[1..] == [c] + tail;
    ByEffect(cfg, rest, elem[1..]);
    EffectByColons(cfg.optstring, rest, elem[1..]);
    OrderedOption(cfg, later, false, rest, []);
    OrderedOption(later, later, false, rest, [c] + tail);
    assert rest[0..] == rest;
  }

  /** A letter that is reported differently makes some scan different. */
  lemma Shows(cfg: Config, sign: char, c: char, tail: string, more: seq<string>)
    requires IsSign(sign) && cfg.longopts.None?
    requires var rest := [['-', ':', c] + tail] + more;
             DecodeShort(Raw(cfg, sign), rest, [c] + tail).report != DecodeShort(cfg, rest, [c] + tail).report
    ensures !AlwaysSame(cfg, sign)
  {
    hide InOrder, DecodeShort;
    SecondCall(cfg, Raw(cfg, sign), c, tail, more);
    SecondCall(cfg, cfg, c, tail, more);
  }

  /** Every command line is scanned as if the sign were dropped on every call. */
  ghost predicate AlwaysSame(cfg: Config, sign: char) {
    forall handOut, rest :: InOrder(cfg, Raw(cfg, sign), handOut, rest, []) == InOrder(cfg, cfg, handOut, rest, [])
  }

  lemma SignShows(cfg: Config, sign: char)
    requires IsSign(sign) && cfg.longopts.None? && !(Listed(cfg.optstring, sign) && ColonsOf(cfg.optstring, sign) == Leading(cfg.optstring))
    ensures !AlwaysSame(cfg, sign)
  {
    hide AlwaysSame, DecodeShort, EffectOf, IndexOf, Colons, Listed, Leading;
    var s := cfg.optstring;
    var own, lead := ColonsOf(s, sign), Leading(s);
    RawColons(s, sign, sign);
    SomeColons(s, IndexOf(s, sign));
    var attached := !Listed(s, sign) || (own == 0) != (lead == 0);
    var tail, more := if attached then "x" else "", if attached then [] else ["y"];
    var rest, next := [['-', ':', sign] + tail] + more, [sign] + tail;
    assert next[1..] == tail;
    ByEffect(cfg, rest, next);
    ByEffect(Raw(cfg, sign), rest, next);
    EffectByColons(s, rest, next);
    EffectByColons([sign] + s, rest, next);
    Shows(cfg, sign, sign, tail, more);
  }

  lemma MissingShows(cfg: Config, sign: char, c: char)
    requires IsSign(sign) && cfg.longopts.None? && Listed(cfg.optstring, sign) && ColonsOf(cfg.optstring, sign) == Leading(cfg.optstring)
    requires Leading(cfg.optstring) > 0 && c in cfg.optstring && c != ':' && ColonsOf(cfg.optstring, c) == 1
    ensures !AlwaysSame(cfg, sign)
  {
    hide AlwaysSame, DecodeShort, EffectOf, Colons;
    var s := cfg.optstring;
    var rest, next := [['-', ':', c] + ""] + [], [c] + "";
    assert next[1..] == "";
    RawColons(s, sign, c);
    ByEffect(cfg, rest, next);
    ByEffect(Raw(cfg, sign), rest, next);
    EffectByColons(s, rest, next);
    EffectByColons([sign] + s, rest, next);
    Shows(cfg, sign, c, "", []);
  }

  /** With short options only: dropping the sign on the first call alone makes no difference to any command line if
      and only if the option string is of that kind. */
  lemma AlwaysSameIff(cfg: Config, sign: char)
    requires IsSign(sign) && cfg.longopts.None?
    ensures AlwaysSame(cfg, sign) <==> Harmless(cfg.optstring, sign)
  {
    hide InOrder, Listed, ColonsOf, Leading;
    var s := cfg.optstring;
    if Harmless(s, sign) {
      forall handOut, rest
        ensures InOrder(cfg, Raw(cfg, sign), handOut, rest, []) == InOrder(cfg, cfg, handOut, rest, [])
      {
        InOrderSame(cfg, cfg, sign, handOut, rest, []);
      }
    } else if Listed(s, sign) && ColonsOf(s, sign) == Leading(s) {
      var c :| c in s && c != ':' && ColonsOf(s, c) == 1;
      MissingShows(cfg, sign, c);
    } else {
      SignShows(cfg, sign);
    }
  }
}

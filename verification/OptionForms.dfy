/** The forms in which options are written, and what a scan reports for each. */
module OptionForms {
  import opened Options
  import opened Sequences
  import opened OptionScan
  import opened OptionString

  // ----- elements that are no options -----

  /** An element that is neither an option nor `--`. */
  predicate Plain(elem: string) {
    elem == "" || elem[0] != '-' || elem == "-"
  }

  /** Such an element is passed over; `--` ends the options. */
  lemma PassedOver(cfg: Config, elem: string, more: seq<string>)
    requires Plain(elem)
    ensures var s := Scan(cfg, more, []);
            Scan(cfg, [elem] + more, []) == Scanned(s.reports, [false] + s.marks)
  {
    assert ([elem] + more)[1..] == more;
  }

  lemma EndOfOptions(cfg: Config, more: seq<string>)
    ensures Scan(cfg, ["--"] + more, []).reports == []
    ensures Scan(cfg, ["--"] + more, []).marks == [true] + seq(|more|, _ => false)
  {
    assert Marks(|more|, false) == seq(|more|, _ => false);
  }

  // ----- long options -----

  /** Option number `i` is the first of that very name, or the only one that the name abbreviates. */
  predicate Named(cfg: Config, i: nat, name: string) {
    cfg.longopts.Some? && '=' !in name
    && var ls := cfg.longopts.value;
       i < |ls|
       && ((ls[i].name == name && forall j :: 0 <= j < i ==> ls[j].name != name)
           || (name <= ls[i].name
               && forall j :: 0 <= j < |ls| ==> ls[j].name != name && (j != i ==> !(name <= ls[j].name))))
  }

  /** No option has that name, and none or several begin with it. */
  predicate Nameless(cfg: Config, name: string) {
    cfg.longopts.Some? && '=' !in name
    && var ls := cfg.longopts.value;
       (forall j :: 0 <= j < |ls| ==> ls[j].name != name)
       && ((forall j :: 0 <= j < |ls| ==> !(name <= ls[j].name))
           || exists i, j :: 0 <= i < j < |ls| && name <= ls[i].name && name <= ls[j].name)
  }

  /** What stands in front of a long name: two dashes, or one where the caller allows it for names of some length. */
  predicate Dashed(cfg: Config, dashes: string, text: string) {
    dashes == "--" || (dashes == "-" && cfg.longOnly && |text| > 1 && text[0] != '-')
  }

  /** Its report: its value, or zero when the value goes into a variable of the caller. */
  function LongReport(cfg: Config, i: nat, arg: Option<string>): Report
    requires cfg.longopts.Some? && i < |cfg.longopts.value|
  {
    var o := cfg.longopts.value[i];
    if o.flag.None? then Report(o.val, arg, None, Some(i), None)
    else Report(0, arg, None, Some(i), Some((o.flag.value, o.val)))
  }

  /** The code for a missing argument. */
  function Lacking(cfg: Config): int {
    if cfg.optstring != "" && cfg.optstring[0] == ':' then ':' as int else '?' as int
  }

  lemma NameEndsHere(name: string, tail: string)
    requires '=' !in name && (tail == "" || tail[0] == '=')
    ensures NameEnd(name + tail) == |name| && (name + tail)[..|name|] == name
  {
    var s := name + tail;
    assert forall i :: 0 <= i < |name| ==> s[i] == name[i] && name[i] in name;
    assert tail != "" ==> s[|name|] == '=';
  }

  lemma Exactly(cfg: Config, i: nat, name: string)
    requires Named(cfg, i, name)
    ensures Lookup(cfg.longopts.value, name) == Match(i)
  {
    LookupMeaning(cfg.longopts.value, name);
  }

  /** How the scan goes on behind an option that is done with `used` elements. */
  predicate Reported(cfg: Config, rest: seq<string>, r: Report, used: nat) {
    used <= |rest|
    && var s := Scan(cfg, rest[used..], []);
       Scan(cfg, rest, []) == Scanned([r] + s.reports, seq(used, _ => true) + s.marks)
  }

  lemma OneLong(cfg: Config, dashes: string, text: string, more: seq<string>, r: Report, used: nat)
    requires cfg.longopts.Some? && text != "" && Dashed(cfg, dashes, text)
    requires Decode(cfg, [dashes + text] + more, text) == Decoded(r, "", used)
    ensures Reported(cfg, [dashes + text] + more, r, used)
  {
    hide Decode, Scan;
    var elem := dashes + text;
    var rest := [elem] + more;
    assert elem[0] == dashes[0] && elem[|dashes|..] == text && elem[|dashes|] == text[0];
    if dashes == "--" {
      assert elem[1] == dashes[1];
    }
    assert Start(cfg, rest[0]) == text;
    ScanOption(cfg, rest, []);
    assert Marks(used, true) == seq(used, _ => true);
  }

  lemma LooksUp(cfg: Config, dashes: string, text: string, more: seq<string>)
    requires cfg.longopts.Some? && text != "" && Dashed(cfg, dashes, text)
    ensures |dashes + text| >= 2 && TriesLong(cfg, ([dashes + text] + more)[0])
    ensures dashes == "--" ==> (dashes + text)[1] == '-'
  {
    var elem := dashes + text;
    assert elem[1] == if dashes == "--" then '-' else text[0];
  }

  /** `--name=v` gives `v` as the argument, if the option takes one; the rest of the elements is not touched. */
  lemma LongAttached(cfg: Config, i: nat, dashes: string, name: string, v: string, more: seq<string>)
    requires Named(cfg, i, name) && Dashed(cfg, dashes, name + "=" + v)
    ensures Reported(cfg, [dashes + (name + "=" + v)] + more,
                     if cfg.longopts.value[i].hasArg == 0 then Report('?' as int, None, None, None, None)
                     else LongReport(cfg, i, Some(v)), 1)
  {
    hide Lookup, NameEnd, Scan, Reported, Named, Dashed, TriesLong;
    var text := name + "=" + v;
    NamedIn(cfg, i, name);
    assert text == name + ("=" + v);
    NameEndsHere(name, "=" + v);
    Exactly(cfg, i, name);
    LooksUp(cfg, dashes, text, more);
    assert text[|name| + 1..] == v;
    var r := if cfg.longopts.value[i].hasArg == 0 then Report('?' as int, None, None, None, None) else LongReport(cfg, i, Some(v));
    OneLong(cfg, dashes, text, more, r, 1);
  }

  lemma NamedIn(cfg: Config, i: nat, name: string)
    requires Named(cfg, i, name)
    ensures cfg.longopts.Some? && i < |cfg.longopts.value| && '=' !in name
  {}

  /** `--name` takes the next element as its argument if it needs one, and reports it missing if there is none;
      an option that needs none gets none. */
  lemma LongAlone(cfg: Config, i: nat, dashes: string, name: string, more: seq<string>)
    requires Named(cfg, i, name) && Dashed(cfg, dashes, name) && name != ""
    ensures cfg.longopts.value[i].hasArg != 1 ==> Reported(cfg, [dashes + name] + more, LongReport(cfg, i, None), 1)
    ensures cfg.longopts.value[i].hasArg == 1 && more != [] ==>
            Reported(cfg, [dashes + name] + more, LongReport(cfg, i, Some(more[0])), 2)
    ensures cfg.longopts.value[i].hasArg == 1 && more == [] ==>
            Reported(cfg, [dashes + name] + more, Report(Lacking(cfg), None, None, None, None), 1)
  {
    hide Lookup, NameEnd, Scan, Reported, Named, Dashed, TriesLong;
    NamedIn(cfg, i, name);
    assert name + "" == name;
    NameEndsHere(name, "");
    Exactly(cfg, i, name);
    LooksUp(cfg, dashes, name, more);
    var o := cfg.longopts.value[i];
    if o.hasArg != 1 {
      OneLong(cfg, dashes, name, more, LongReport(cfg, i, None), 1);
    } else if more != [] {
      assert ([dashes + name] + more)[1] == more[0];
      OneLong(cfg, dashes, name, more, LongReport(cfg, i, Some(more[0])), 2);
    } else {
      OneLong(cfg, dashes, name, more, Report(Lacking(cfg), None, None, None, None), 1);
    }
  }

  /** A name that stands for no option, or for several, is reported as unknown, with or without an argument. */
  lemma LongUnknown(cfg: Config, name: string, tail: string, more: seq<string>)
    requires Nameless(cfg, name) && (tail == "" || tail[0] == '=') && name + tail != ""
    ensures Reported(cfg, ["--" + (name + tail)] + more, Report('?' as int, None, None, None, None), 1)
  {
    hide Lookup, NameEnd, Scan, Reported, TriesLong;
    NameEndsHere(name, tail);
    LookupMeaning(cfg.longopts.value, name);
    LooksUp(cfg, "--", name + tail, more);
    OneLong(cfg, "--", name + tail, more, Report('?' as int, None, None, None, None), 1);
  }

  // ----- short options -----

  /** The letter `c` is listed behind `front`, and `back` follows it. */
  predicate ListedIn(optstring: string, front: string, c: char, back: string) {
    optstring == front + [c] + back && c !in front && c != ':'
  }

  /** The elements from one in which letters are left, behind `before`. */
  predicate Letters(cfg: Config, before: string, letters: string) {
    letters != "" && (cfg.longopts.None? || (!cfg.longOnly && (before + letters)[0] != '-'))
  }

  /** An element of letters is decoded from its first letter on. */
  lemma FirstLetter(cfg: Config, letters: string, more: seq<string>)
    requires Letters(cfg, "", letters) && letters != "-"
    ensures Scan(cfg, ["-" + letters] + more, []) == Scan(cfg, ["-" + letters] + more, letters)
  {
    hide Decode;
    var rest := ["-" + letters] + more;
    assert "" + letters == letters && ("-" + letters)[1..] == letters;
    assert rest[0][1] == letters[0];
    assert "--"[1..] == "-" && rest[0][1..] == letters;
    ScanOption(cfg, rest, []);
    ScanOption(cfg, rest, letters);
  }

  /** Letters are left in the element. */
  predicate GoesOnIn(cfg: Config, rest: seq<string>, next: string, r: Report, left: string) {
    left != "" && rest != [] && |rest[0]| >= 2 && next != ""
    && var s := Scan(cfg, rest, left);
       Scan(cfg, rest, next) == Scanned([r] + s.reports, s.marks)
  }

  /** The element is done with, and possibly the one behind it. */
  predicate DoneIn(cfg: Config, rest: seq<string>, next: string, r: Report, used: nat) {
    0 < used <= |rest| && |rest[0]| >= 2 && next != ""
    && var s := Scan(cfg, rest[used..], []);
       Scan(cfg, rest, next) == Scanned([r] + s.reports, seq(used, _ => true) + s.marks)
  }

  /** The elements when letters are left behind `before`. */
  function At(before: string, letters: string, more: seq<string>): seq<string> {
    ["-" + before + letters] + more
  }

  lemma OneShort(cfg: Config, before: string, letters: string, more: seq<string>)
    requires Letters(cfg, before, letters)
    ensures var rest := At(before, letters, more); var d := DecodeShort(cfg, rest, letters);
            |rest[0]| >= 2
            && (d.used == 0 ==> GoesOnIn(cfg, rest, letters, d.report, d.next))
            && (d.used > 0 ==> DoneIn(cfg, rest, letters, d.report, d.used))
  {
    hide DecodeShort;
    var rest := At(before, letters, more);
    assert "-" + before + letters == "-" + (before + letters);
    assert rest[0][1] == (before + letters)[0];
    assert Decode(cfg, rest, letters) == DecodeShort(cfg, rest, letters);
    ScanOption(cfg, rest, letters);
    var d := DecodeShort(cfg, rest, letters);
    assert Marks(d.used, true) == seq(d.used, _ => true);
    assert rest[0..] == rest;
    assert seq(0, _ => true) + Scan(cfg, rest[d.used..], d.next).marks == Scan(cfg, rest[d.used..], d.next).marks;
  }

  lemma WhereListed(optstring: string, front: string, c: char, back: string)
    requires ListedIn(optstring, front, c, back)
    ensures IndexOf(optstring, c) == |front|
    ensures ColonAt(optstring, |front| + 1) <==> back != "" && back[0] == ':'
    ensures ColonAt(optstring, |front| + 2) <==> |back| > 1 && back[1] == ':'
  {
    assert optstring[|front|] == c;
    assert forall k :: 0 <= k < |front| ==> optstring[k] == front[k] && front[k] in front;
    assert forall k :: 0 <= k < |back| ==> optstring[|front| + 1 + k] == back[k];
  }

  /** A letter without a colon: reported by itself, and the letters behind it come next. */
  lemma LetterAlone(cfg: Config, front: string, c: char, back: string, before: string, tail: string, more: seq<string>)
    requires ListedIn(cfg.optstring, front, c, back) && (back == "" || back[0] != ':') && Letters(cfg, before, [c] + tail)
    ensures var rest, r := At(before, [c] + tail, more), Report(c as int, None, None, None, None);
            if tail == "" then DoneIn(cfg, rest, [c] + tail, r, 1) else GoesOnIn(cfg, rest, [c] + tail, r, tail)
  {
    hide IndexOf, ColonAt, GoesOnIn, DoneIn;
    WhereListed(cfg.optstring, front, c, back);
    OneShort(cfg, before, [c] + tail, more);
    assert ([c] + tail)[1..] == tail && |cfg.optstring| > |front|;
  }

  /** A letter with one colon: its argument is what is left of the element, or else the next element. */
  lemma LetterRequired(cfg: Config, front: string, c: char, back: string, before: string, tail: string, more: seq<string>)
    requires ListedIn(cfg.optstring, front, c, ":" + back) && (back == "" || back[0] != ':') && Letters(cfg, before, [c] + tail)
    ensures var rest := At(before, [c] + tail, more);
            if tail != "" then DoneIn(cfg, rest, [c] + tail, Report(c as int, Some(tail), None, None, None), 1)
            else if more != [] then DoneIn(cfg, rest, [c] + tail, Report(c as int, Some(more[0]), None, None, None), 2)
            else DoneIn(cfg, rest, [c] + tail, Report(Lacking(cfg), None, Some(c), None, None), 1)
  {
    hide IndexOf, ColonAt, GoesOnIn, DoneIn;
    WhereListed(cfg.optstring, front, c, ":" + back);
    OneShort(cfg, before, [c] + tail, more);
    assert ([c] + tail)[1..] == tail && |cfg.optstring| > |front| && (|back| > 0 ==> (":" + back)[1] == back[0]);
  }

  /** A letter with two colons: only what is left of the element can be its argument. */
  lemma LetterOptional(cfg: Config, front: string, c: char, back: string, before: string, tail: string, more: seq<string>)
    requires ListedIn(cfg.optstring, front, c, "::" + back) && Letters(cfg, before, [c] + tail)
    ensures var rest := At(before, [c] + tail, more);
            DoneIn(cfg, rest, [c] + tail, Report(c as int, if tail == "" then None else Some(tail), None, None, None), 1)
  {
    hide IndexOf, ColonAt, GoesOnIn, DoneIn;
    WhereListed(cfg.optstring, front, c, "::" + back);
    OneShort(cfg, before, [c] + tail, more);
    assert ([c] + tail)[1..] == tail && |cfg.optstring| > |front|;
  }

  /** Any other letter is reported as unknown, and the letters behind it come next. */
  lemma LetterUnknown(cfg: Config, c: char, before: string, tail: string, more: seq<string>)
    requires (c !in cfg.optstring || c == ':') && Letters(cfg, before, [c] + tail)
    ensures var rest, r := At(before, [c] + tail, more), Report('?' as int, None, Some(c), None, None);
            if tail == "" then DoneIn(cfg, rest, [c] + tail, r, 1) else GoesOnIn(cfg, rest, [c] + tail, r, tail)
  {
    hide ColonAt, GoesOnIn, DoneIn;
    OneShort(cfg, before, [c] + tail, more);
    assert ([c] + tail)[1..] == tail;
  }

  // ----- without permuting -----

  /** Where non-options are handed out, each is the argument of an option with code 1. */
  lemma {:induction false} WordsHandedOut(cfg: Config, words: seq<string>)
    requires forall i :: 0 <= i < |words| ==> Plain(words[i])
    ensures InOrder(cfg, cfg, true, words, []) == Ordered(seq(|words|, i requires 0 <= i < |words| => Report(1, Some(words[i]), None, None, None)), |words|)
  {
    if words != [] {
      OrderedOther(cfg, cfg, true, words);
      WordsHandedOut(cfg, words[1..]);
    }
  }

  /** Otherwise the first one ends the scan and stays; `--` ends it in either case and goes. */
  lemma InOrderEnds(cfg: Config, handOut: bool, elem: string, more: seq<string>)
    requires Plain(elem)
    ensures InOrder(cfg, cfg, false, [elem] + more, []) == Ordered([], 0)
    ensures InOrder(cfg, cfg, handOut, ["--"] + more, []) == Ordered([], 1)
  {
    OrderedOther(cfg, cfg, false, [elem] + more);
    OrderedOther(cfg, cfg, handOut, ["--"] + more);
  }
}

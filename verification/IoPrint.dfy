// Printing a nest of calls and scanning it finds exactly that call, with exactly the quotes
// noted that were left unescaped (keep/iohandler/iohandler.py, extract_keep_functions).
module IoPrint {
  import opened Wrappers
  import opened IoScanner
  import opened IoRepair

  /** A character of a string's content. A raw one is the string's own quote, left without
      the backslash it needs. */
  datatype Letter = Letter(c: char, raw: bool)

  /** An argument: a quoted string with any content, bare text, or another call. */
  datatype Arg =
    | Str(quote: char, body: seq<Letter>)
    | Bare(text: string)
    | Call(name: string, args: seq<Arg>)

  /** Text the scanner passes over: no quotes and no parentheses. */
  predicate Neutral(text: string) {
    forall k :: 0 <= k < |text| ==> text[k] != '\'' && text[k] != '"' && text[k] != '(' && text[k] != ')'
  }

  /** Quotes, backslashes and parentheses are no letters or digits. */
  predicate Ordinary(alnum: set<char>) {
    '\'' !in alnum && '"' !in alnum && '\\' !in alnum && ')' !in alnum
  }

  /** What stands between arguments, a comma with blanks after it for instance: the scanner
      passes over it, and its first character ends a string in front of it. */
  predicate Separates(alnum: set<char>, sep: string) {
    Neutral(sep) && sep != "" && sep[0] !in alnum && sep[0] != ' '
  }

  /** A raw letter is the string's own quote and is followed by a letter, digit or blank. */
  predicate Spelled(alnum: set<char>, quote: char, body: seq<Letter>) {
    forall k :: 0 <= k < |body| && body[k].raw ==>
      body[k].c == quote && k + 1 < |body| && (body[k + 1].c in alnum || body[k + 1].c == ' ')
  }

  predicate WellFormed(alnum: set<char>, a: Arg) {
    match a
    case Str(quote, body) => (quote == '\'' || quote == '"') && Spelled(alnum, quote, body)
    case Bare(text) => Neutral(text)
    case Call(name, args) => Neutral(name) && forall k :: 0 <= k < |args| ==> WellFormed(alnum, args[k])
  }

  /** The string's own quote, unless it is raw, and the backslash are escaped. */
  function Written(l: Letter, quote: char): string {
    if !l.raw && (l.c == quote || l.c == '\\') then ['\\', l.c] else [l.c]
  }

  function Content(body: seq<Letter>, quote: char): string {
    if body == [] then "" else Written(body[0], quote) + Content(body[1..], quote)
  }

  function Print(sep: string, a: Arg): string
    decreases a, 0
  {
    match a
    case Str(quote, body) => [quote] + (Content(body, quote) + [quote])
    case Bare(text) => text
    case Call(name, args) => ("keep." + name) + (['('] + (PrintAll(sep, args) + [')']))
  }

  function PrintAll(sep: string, args: seq<Arg>): string
    decreases args, 0
  {
    if args == [] then ""
    else if |args| == 1 then Print(sep, args[0])
    else Print(sep, args[0]) + (sep + PrintAll(sep, args[1..]))
  }

  /** Where the raw quotes stand in an argument printed at position `i`. */
  function RawIn(body: seq<Letter>, quote: char, i: nat): seq<nat> {
    if body == [] then []
    else (if body[0].raw then [i] else []) + RawIn(body[1..], quote, i + |Written(body[0], quote)|)
  }

  function Raw(sep: string, a: Arg, i: nat): seq<nat>
    decreases a, 0
  {
    match a
    case Str(quote, body) => RawIn(body, quote, i + 1)
    case Bare(text) => []
    case Call(name, args) => RawAll(sep, args, i + |"keep." + name| + 1)
  }

  function RawAll(sep: string, args: seq<Arg>, i: nat): seq<nat>
    decreases args, 0
  {
    if args == [] then []
    else if |args| == 1 then Raw(sep, args[0], i)
    else Raw(sep, args[0], i) + RawAll(sep, args[1..], i + |Print(sep, args[0])| + |sep|)
  }

  function CleanBody(body: seq<Letter>): (r: seq<Letter>)
    ensures |r| == |body|
  {
    seq(|body|, k requires 0 <= k < |body| => Letter(body[k].c, false))
  }

  /** The same argument with nothing raw in it. */
  function Clean(a: Arg): Arg
    decreases a, 0
  {
    match a
    case Str(quote, body) => Str(quote, CleanBody(body))
    case Bare(text) => a
    case Call(name, args) => Call(name, CleanAll(args))
  }

  function CleanAll(args: seq<Arg>): (r: seq<Arg>)
    ensures |r| == |args|
    decreases args, 0
  {
    if args == [] then [] else [Clean(args[0])] + CleanAll(args[1..])
  }

  // ---- Passing over printed text ----

  /** `part` stands at position `i` of the text. */
  predicate Stands(text: string, i: nat, part: string) {
    i + |part| <= |text| && text[i..i + |part|] == part
  }

  lemma StandsSplit(text: string, i: nat, a: string, b: string)
    requires Stands(text, i, a + b)
    ensures Stands(text, i, a) && Stands(text, i + |a|, b)
  {
    var part := text[i..i + |a + b|];
    assert part[..|a|] == a && part[|a|..] == b;
    assert text[i..i + |a|] == part[..|a|] && text[i + |a|..i + |a| + |b|] == part[|a|..];
  }

  lemma StandsAt(text: string, i: nat, c: char)
    requires Stands(text, i, [c])
    ensures i < |text| && text[i] == c
  {
    assert text[i] == text[i..i + 1][0];
  }

  lemma StandsFirst(text: string, i: nat, part: string)
    requires Stands(text, i, part) && part != ""
    ensures i < |text| && text[i] == part[0]
  {
    assert text[i] == text[i..i + |part|][0];
  }

  /** Scanning from `i` in mode `m` goes on at `j` in mode `m'` with `notes` noted, and the
      stretch is copied, with a backslash at each of them, as `copied`. */
  ghost predicate Passes(alnum: set<char>, text: string, i: nat, m: Mode, j: nat, m': Mode, notes: seq<nat>, copied: string) {
    && i <= j <= |text|
    && (forall found :: ScanCall(alnum, text, i, m, found) == ScanCall(alnum, text, j, m', found + notes))
    && Copy(alnum, text, i, m) == copied + Copy(alnum, text, j, m')
  }

  lemma PassesTrans(alnum: set<char>, text: string, i: nat, m: Mode, j: nat, m': Mode, n: seq<nat>, c: string,
                    k: nat, m'': Mode, n': seq<nat>, c': string)
    requires Passes(alnum, text, i, m, j, m', n, c) && Passes(alnum, text, j, m', k, m'', n', c')
    ensures Passes(alnum, text, i, m, k, m'', n + n', c + c')
  {
    hide ScanCall, Copy;
    forall found ensures ScanCall(alnum, text, i, m, found) == ScanCall(alnum, text, k, m'', found + (n + n')) {
      assert ScanCall(alnum, text, j, m', found + n) == ScanCall(alnum, text, k, m'', (found + n) + n');
      assert (found + n) + n' == found + (n + n');
    }
    assert (c + c') + Copy(alnum, text, k, m'') == c + (c' + Copy(alnum, text, k, m''));
  }

  /** One character, not noted. */
  lemma PassOne(alnum: set<char>, text: string, i: nat, m: Mode)
    requires i < |text| && !Done(m) && !Crashes(text, i, m) && !Records(alnum, text, i, m)
    ensures Passes(alnum, text, i, m, i + 1, Next(alnum, text, i, m), [], [text[i]])
  {
    assert forall found: seq<nat> :: found + [] == found;
  }

  /** One character, noted. */
  lemma PassRaw(alnum: set<char>, text: string, i: nat, m: Mode)
    requires i < |text| && !Done(m) && Records(alnum, text, i, m)
    ensures Passes(alnum, text, i, m, i + 1, Next(alnum, text, i, m), [i], ['\\', text[i]])
  {}

  /** Outside strings, inside a call. */
  function Open(depth: nat): Mode {
    Mode(depth, None, false)
  }

  function InString(depth: nat, quote: char): Mode {
    Mode(depth, Some(quote), false)
  }

  lemma PassNothing(alnum: set<char>, text: string, i: nat, m: Mode)
    requires i <= |text|
    ensures Passes(alnum, text, i, m, i, m, [], "")
  {
    assert forall found: seq<nat> :: found + [] == found;
  }

  lemma {:induction false} PassNeutral(alnum: set<char>, text: string, i: nat, part: string, depth: nat)
    requires Stands(text, i, part) && Neutral(part) && depth > 0
    ensures Passes(alnum, text, i, Open(depth), i + |part|, Open(depth), [], part)
    decreases part
  {
    if part == "" {
      PassNothing(alnum, text, i, Open(depth));
    } else {
      StandsSplit(text, i, [part[0]], part[1..]);
      assert [part[0]] + part[1..] == part;
      StandsAt(text, i, part[0]);
      assert Neutral(part[1..]);
      hide Passes, Stands;
      PassOne(alnum, text, i, Open(depth));
      PassNeutral(alnum, text, i + 1, part[1..], depth);
      PassesTrans(alnum, text, i, Open(depth), i + 1, Open(depth), [], [part[0]],
                  i + |part|, Open(depth), [], part[1..]);
    }
  }

  /** One letter of a string's content, escaped, raw, or as it is. */
  lemma PassLetter(alnum: set<char>, text: string, i: nat, l: Letter, depth: nat, quote: char)
    requires (quote == '\'' || quote == '"') && depth > 0 && Stands(text, i, Written(l, quote))
    requires l.raw ==> l.c == quote && i + 1 < |text| && (text[i + 1] in alnum || text[i + 1] == ' ')
    ensures Passes(alnum, text, i, InString(depth, quote), i + |Written(l, quote)|, InString(depth, quote),
                   if l.raw then [i] else [], Written(l.(raw := false), quote))
  {
    var m := InString(depth, quote);
    if l.raw {
      StandsAt(text, i, l.c);
      PassRaw(alnum, text, i, m);
    } else if l.c == quote || l.c == '\\' {
      StandsSplit(text, i, ['\\'], [l.c]);
      assert ['\\'] + [l.c] == ['\\', l.c];
      StandsAt(text, i, '\\');
      StandsAt(text, i + 1, l.c);
      PassOne(alnum, text, i, m);
      PassOne(alnum, text, i + 1, m.(escape := true));
      hide Passes, Stands;
      PassesTrans(alnum, text, i, m, i + 1, m.(escape := true), [], ['\\'], i + 2, m, [], [l.c]);
    } else {
      StandsAt(text, i, l.c);
      PassOne(alnum, text, i, m);
    }
  }

  lemma ContentFirst(body: seq<Letter>, quote: char)
    requires body != []
    ensures Content(body, quote) == Written(body[0], quote) + Content(body[1..], quote)
    ensures Content(CleanBody(body), quote) == Written(body[0].(raw := false), quote) + Content(CleanBody(body[1..]), quote)
  {
    assert CleanBody(body)[1..] == CleanBody(body[1..]);
  }

  /** What stands behind a raw letter. */
  lemma BehindRaw(alnum: set<char>, text: string, i: nat, body: seq<Letter>, quote: char)
    requires Ordinary(alnum) && (quote == '\'' || quote == '"') && Spelled(alnum, quote, body) && body != [] && body[0].raw
    requires Stands(text, i, Content(body, quote))
    ensures i + 1 < |text| && (text[i + 1] in alnum || text[i + 1] == ' ')
  {
    var w, next := Written(body[0], quote), body[1];
    ContentFirst(body, quote);
    ContentFirst(body[1..], quote);
    StandsSplit(text, i, w, Content(body[1..], quote));
    StandsFirst(text, i + 1, Content(body[1..], quote));
    assert next.raw ==> next.c == quote;
    assert Written(next, quote) == [next.c];
  }

  /** Taking the first letter of a string's content. */
  lemma BodyPlan(alnum: set<char>, text: string, i: nat, body: seq<Letter>, quote: char)
    requires Ordinary(alnum) && (quote == '\'' || quote == '"') && Spelled(alnum, quote, body) && body != []
    requires Stands(text, i, Content(body, quote))
    ensures var (l, w, rest) := (body[0], Written(body[0], quote), Content(body[1..], quote));
            && Stands(text, i, w) && Stands(text, i + |w|, rest) && Content(body, quote) == w + rest
            && Spelled(alnum, quote, body[1..])
            && (l.raw ==> l.c == quote && i + 1 < |text| && (text[i + 1] in alnum || text[i + 1] == ' '))
            && Content(CleanBody(body), quote) == Written(l.(raw := false), quote) + Content(CleanBody(body[1..]), quote)
            && RawIn(body, quote, i) == (if l.raw then [i] else []) + RawIn(body[1..], quote, i + |w|)
  {
    ContentFirst(body, quote);
    if body[0].raw {
      BehindRaw(alnum, text, i, body, quote);
    }
    assert Spelled(alnum, quote, body[1..]) by {
      assert forall k :: 0 <= k < |body[1..]| ==> body[1..][k] == body[k + 1];
    }
    hide Stands, Content, CleanBody, Spelled, Written;
    StandsSplit(text, i, Written(body[0], quote), Content(body[1..], quote));
  }

  lemma {:induction false} PassBody(alnum: set<char>, text: string, i: nat, body: seq<Letter>, depth: nat, quote: char)
    requires Ordinary(alnum) && (quote == '\'' || quote == '"') && Spelled(alnum, quote, body) && depth > 0
    requires Stands(text, i, Content(body, quote))
    ensures Passes(alnum, text, i, InString(depth, quote), i + |Content(body, quote)|, InString(depth, quote),
                   RawIn(body, quote, i), Content(CleanBody(body), quote))
    decreases body
  {
    hide *;
    if body == [] {
      EmptyBody(text, i, quote);
      PassNothing(alnum, text, i, InString(depth, quote));
    } else {
      var w, rest := Written(body[0], quote), Content(body[1..], quote);
      BodyPlan(alnum, text, i, body, quote);
      PassLetter(alnum, text, i, body[0], depth, quote);
      PassBody(alnum, text, i + |w|, body[1..], depth, quote);
      PassesTrans(alnum, text, i, InString(depth, quote), i + |w|, InString(depth, quote),
                  if body[0].raw then [i] else [], Written(body[0].(raw := false), quote),
                  i + |w| + |rest|, InString(depth, quote),
                  RawIn(body[1..], quote, i + |w|), Content(CleanBody(body[1..]), quote));
    }
  }

  lemma EmptyBody(text: string, i: nat, quote: char)
    requires Stands(text, i, Content([], quote))
    ensures i <= |text| && Content([], quote) == "" && RawIn([], quote, i) == [] && Content(CleanBody([]), quote) == ""
  {
    assert CleanBody([]) == [];
  }

  /** What follows an argument ends a string there: it is no letter, digit or blank. */
  predicate Follows(alnum: set<char>, text: string, i: nat) {
    i < |text| && text[i] !in alnum && text[i] != ' '
  }

  /** A printed argument is passed over as a whole, and exactly its raw quotes are noted. */
  lemma {:induction false} PassArg(alnum: set<char>, sep: string, text: string, i: nat, a: Arg, depth: nat)
    requires WellFormed(alnum, a) && Stands(text, i, Print(sep, a)) && depth > 0
    requires Separates(alnum, sep) && Ordinary(alnum)
    requires Follows(alnum, text, i + |Print(sep, a)|)
    ensures Passes(alnum, text, i, Open(depth), i + |Print(sep, a)|, Open(depth), Raw(sep, a, i), Print(sep, Clean(a)))
    decreases a, 1
  {
    match a
    case Bare(t) => PassNeutral(alnum, text, i, t, depth);
    case Str(quote, body) => PassString(alnum, sep, text, i, quote, body, depth);
    case Call(name, args) => PassCall(alnum, sep, text, i, name, args, depth);
  }

  lemma PassString(alnum: set<char>, sep: string, text: string, i: nat, quote: char, body: seq<Letter>, depth: nat)
    requires WellFormed(alnum, Str(quote, body)) && Ordinary(alnum)
    requires Stands(text, i, Print(sep, Str(quote, body))) && depth > 0
    requires Follows(alnum, text, i + |Print(sep, Str(quote, body))|)
    ensures Passes(alnum, text, i, Open(depth), i + |Print(sep, Str(quote, body))|, Open(depth),
                   RawIn(body, quote, i + 1), [quote] + (Content(CleanBody(body), quote) + [quote]))
    ensures Print(sep, Clean(Str(quote, body))) == [quote] + (Content(CleanBody(body), quote) + [quote])
  {
    hide *;
    var clean, notes, j := Content(CleanBody(body), quote), RawIn(body, quote, i + 1), i + 1 + |Content(body, quote)|;
    StringPlan(alnum, sep, text, i, quote, body, depth);
    PassBody(alnum, text, i + 1, body, depth, quote);
    PassesTrans(alnum, text, i + 1, InString(depth, quote), j, InString(depth, quote), notes, clean,
                j + 1, Open(depth), [], [quote]);
    PassesTrans(alnum, text, i, Open(depth), i + 1, InString(depth, quote), [], [quote],
                j + 1, Open(depth), notes + [], clean + [quote]);
    assert [] + (notes + []) == notes;
  }

  /** The quotes around a string's content. */
  lemma StringPlan(alnum: set<char>, sep: string, text: string, i: nat, quote: char, body: seq<Letter>, depth: nat)
    requires WellFormed(alnum, Str(quote, body)) && depth > 0
    requires Stands(text, i, Print(sep, Str(quote, body)))
    requires Follows(alnum, text, i + |Print(sep, Str(quote, body))|)
    ensures Print(sep, Clean(Str(quote, body))) == [quote] + (Content(CleanBody(body), quote) + [quote])
    ensures (quote == '\'' || quote == '"') && Spelled(alnum, quote, body) && Stands(text, i + 1, Content(body, quote))
    ensures |Print(sep, Str(quote, body))| == |Content(body, quote)| + 2
    ensures Passes(alnum, text, i, Open(depth), i + 1, InString(depth, quote), [], [quote])
    ensures var j := i + 1 + |Content(body, quote)|;
            Passes(alnum, text, j, InString(depth, quote), j + 1, Open(depth), [], [quote])
  {
    hide Passes, Content, CleanBody, Spelled, ScanCall, Copy, Stands;
    var e := Content(body, quote);
    StandsSplit(text, i, [quote], e + [quote]);
    StandsSplit(text, i + 1, e, [quote]);
    StandsAt(text, i, quote);
    StandsAt(text, i + 1 + |e|, quote);
    PassOne(alnum, text, i, Open(depth));
    PassOne(alnum, text, i + 1 + |e|, InString(depth, quote));
  }

  /** A call: its name, its parenthesis, its arguments one level deeper, and back. */
  lemma {:induction false} PassCall(alnum: set<char>, sep: string, text: string, i: nat, name: string, args: seq<Arg>,
                                    depth: nat)
    requires WellFormed(alnum, Call(name, args)) && Stands(text, i, Print(sep, Call(name, args))) && depth > 0
    requires Separates(alnum, sep) && Ordinary(alnum)
    ensures Passes(alnum, text, i, Open(depth), i + |Print(sep, Call(name, args))|, Open(depth),
                   Raw(sep, Call(name, args), i), Print(sep, Clean(Call(name, args))))
    decreases args, 3
  {
    hide Passes, Stands, ScanCall, PrintAll, RawAll, CleanAll;
    var head, tail := "keep." + name, PrintAll(sep, args) + [')'];
    var j := i + |head| + 1;
    var clean := PrintAll(sep, CleanAll(args)) + [')'];
    assert Print(sep, Call(name, args)) == head + (['('] + tail);
    assert Print(sep, Clean(Call(name, args))) == head + (['('] + clean) == (head + ['(']) + clean;
    StandsSplit(text, i, head, ['('] + tail);
    StandsSplit(text, i + |head|, ['('], tail);
    PassHead(alnum, text, i, name, depth);
    PassTail(alnum, sep, text, j, args, depth + 1);
    PassesTrans(alnum, text, i, Open(depth), j, Open(depth + 1), [], head + ['('],
                j + |tail|, Open(depth), RawAll(sep, args, j), clean);
    assert [] + RawAll(sep, args, j) == RawAll(sep, args, j);
  }

  lemma PassHead(alnum: set<char>, text: string, i: nat, name: string, depth: nat)
    requires Neutral(name) && Stands(text, i, "keep." + name) && Stands(text, i + |"keep." + name|, ['(']) && depth > 0
    ensures Passes(alnum, text, i, Open(depth), i + |"keep." + name| + 1, Open(depth + 1), [], ("keep." + name) + ['('])
  {
    var head := "keep." + name;
    var j := i + |head|;
    assert Neutral("keep.") && Neutral(head);
    StandsAt(text, j, '(');
    hide Passes, Stands, ScanCall, Neutral;
    PassNeutral(alnum, text, i, head, depth);
    PassOne(alnum, text, j, Open(depth));
    PassesTrans(alnum, text, i, Open(depth), j, Open(depth), [], head, j + 1, Open(depth + 1), [], ['(']);
  }

  /** The arguments and the closing parenthesis. */
  lemma {:induction false} PassTail(alnum: set<char>, sep: string, text: string, i: nat, args: seq<Arg>, depth: nat)
    requires (forall k :: 0 <= k < |args| ==> WellFormed(alnum, args[k])) && depth > 0
    requires Stands(text, i, PrintAll(sep, args) + [')'])
    requires Separates(alnum, sep) && Ordinary(alnum)
    ensures Passes(alnum, text, i, Open(depth), i + |PrintAll(sep, args)| + 1, Open(depth - 1),
                   RawAll(sep, args, i), PrintAll(sep, CleanAll(args)) + [')'])
    decreases args, 2
  {
    var j := i + |PrintAll(sep, args)|;
    StandsSplit(text, i, PrintAll(sep, args), [')']);
    StandsAt(text, j, ')');
    hide Passes, PrintAll, Stands, RawAll, CleanAll, WellFormed;
    PassArgs(alnum, sep, text, i, args, depth);
    PassOne(alnum, text, j, Open(depth));
    PassesTrans(alnum, text, i, Open(depth), j, Open(depth), RawAll(sep, args, i), PrintAll(sep, CleanAll(args)),
                j + 1, Open(depth - 1), [], [')']);
    assert RawAll(sep, args, i) + [] == RawAll(sep, args, i);
  }

  lemma CleanFirst(sep: string, args: seq<Arg>)
    requires args != []
    ensures |args| == 1 ==> CleanAll(args) == [Clean(args[0])] && PrintAll(sep, CleanAll(args)) == Print(sep, Clean(args[0]))
    ensures |args| > 1 ==>
              PrintAll(sep, CleanAll(args)) == Print(sep, Clean(args[0])) + (sep + PrintAll(sep, CleanAll(args[1..])))
  {
    assert CleanAll(args)[1..] == CleanAll(args[1..]);
  }

  lemma {:induction false} PassArgs(alnum: set<char>, sep: string, text: string, i: nat, args: seq<Arg>, depth: nat)
    requires (forall k :: 0 <= k < |args| ==> WellFormed(alnum, args[k])) && depth > 0
    requires Stands(text, i, PrintAll(sep, args)) && Follows(alnum, text, i + |PrintAll(sep, args)|)
    requires Separates(alnum, sep) && Ordinary(alnum)
    ensures Passes(alnum, text, i, Open(depth), i + |PrintAll(sep, args)|, Open(depth),
                   RawAll(sep, args, i), PrintAll(sep, CleanAll(args)))
    decreases args, 1
  {
    hide Passes, Print, WellFormed, Stands, ScanCall, Raw, Clean;
    if args != [] {
      CleanFirst(sep, args);
    }
    if |args| == 1 {
      PassArg(alnum, sep, text, i, args[0], depth);
    } else if |args| > 1 {
      var first, rest := Print(sep, args[0]), PrintAll(sep, args[1..]);
      assert PrintAll(sep, args) == first + (sep + rest);
      var j, k, end := i + |first|, i + |first| + |sep|, i + |PrintAll(sep, args)|;
      var notes, clean := RawAll(sep, args[1..], k), PrintAll(sep, CleanAll(args[1..]));
      assert RawAll(sep, args, i) == Raw(sep, args[0], i) + notes;
      hide PrintAll, RawAll, CleanAll;
      StandsSplit(text, i, first, sep + rest);
      StandsSplit(text, j, sep, rest);
      StandsFirst(text, j, sep);
      PassArg(alnum, sep, text, i, args[0], depth);
      PassNeutral(alnum, text, j, sep, depth);
      assert end == k + |rest|;
      PassArgs(alnum, sep, text, k, args[1..], depth);
      PassesTrans(alnum, text, j, Open(depth), k, Open(depth), [], sep, end, Open(depth), notes, clean);
      assert [] + notes == notes;
      PassesTrans(alnum, text, i, Open(depth), j, Open(depth), Raw(sep, args[0], i), Print(sep, Clean(args[0])),
                  end, Open(depth), notes, sep + clean);
    } else {
      PassNothing(alnum, text, i, Open(depth));
    }
  }

  /** The head of a printed call. */
  lemma PrintedHead(sep: string, name: string, args: seq<Arg>)
    requires Neutral(name)
    ensures var (text, f, tail) := (Print(sep, Call(name, args)), 5 + |name|, PrintAll(sep, args) + [')']);
            && |text| == f + 1 + |tail| && Stands(text, f + 1, tail) && text[..f + 1] == ("keep." + name) + ['(']
            && KeepAt(text, 0) && Find(text, '(', 0) == f
  {
    var head, tail := "keep." + name, PrintAll(sep, args) + [')'];
    var text, f := Print(sep, Call(name, args)), |head|;
    assert text == head + (['('] + tail);
    assert text[f + 1..] == tail && text[..f + 1] == head + ['('];
    hide PrintAll;
    assert text[f + 1..f + 1 + |tail|] == tail;
    assert text[f] == '(' && text[0..5] == "keep.";
    forall j | 0 <= j < f ensures text[j] != '(' {
      assert text[j] == head[j] && (j >= 5 ==> head[j] == name[j - 5]);
      assert j < 5 ==> head[j] == "keep."[j];
    }
    FindIs(text, '(', 0, f);
  }

  /** Scanning the whole printed call. */
  lemma PrintedScans(alnum: set<char>, sep: string, name: string, args: seq<Arg>)
    requires WellFormed(alnum, Call(name, args)) && Separates(alnum, sep) && Ordinary(alnum)
    ensures var text, f := Print(sep, Call(name, args)), 5 + |name|;
            && KeepAt(text, 0) && f < |text| && Find(text, '(', 0) == f
            && ScanCall(alnum, text, f + 1, Begin, []) == Closed(|text|, Raw(sep, Call(name, args), 0))
            && text[..f + 1] + Copy(alnum, text, f + 1, Begin) == Print(sep, Clean(Call(name, args)))
  {
    var text, f := Print(sep, Call(name, args)), 5 + |name|;
    PrintedHead(sep, name, args);
    CallParts(alnum, sep, name, args);
    hide *;
    PassTail(alnum, sep, text, f + 1, args, 1);
    PrintedEnds(alnum, text, f + 1, RawAll(sep, args, f + 1), PrintAll(sep, CleanAll(args)) + [')']);
  }

  lemma CallParts(alnum: set<char>, sep: string, name: string, args: seq<Arg>)
    requires WellFormed(alnum, Call(name, args))
    ensures forall k :: 0 <= k < |args| ==> WellFormed(alnum, args[k])
    ensures Raw(sep, Call(name, args), 0) == RawAll(sep, args, 5 + |name| + 1)
    ensures Print(sep, Clean(Call(name, args)))
         == (("keep." + name) + ['(']) + (PrintAll(sep, CleanAll(args)) + [')'])
    ensures Open(1) == Begin
  {
    hide PrintAll, RawAll, CleanAll;
  }

  lemma PrintedEnds(alnum: set<char>, text: string, i: nat, notes: seq<nat>, clean: string)
    requires i <= |text| && Passes(alnum, text, i, Open(1), |text|, Open(0), notes, clean)
    ensures ScanCall(alnum, text, i, Begin, []) == Closed(|text|, notes)
    ensures Copy(alnum, text, i, Begin) == clean
  {
    assert [] + notes == notes && clean + "" == clean;
    assert ScanCall(alnum, text, |text|, Open(0), notes) == Closed(|text|, notes);
  }

  /** Scanning a printed call of any nesting, with any strings in it, finds one match: the
      whole text, and the quotes to escape are exactly those that were left raw. */
  lemma CallRoundTrip(alnum: set<char>, sep: string, name: string, args: seq<Arg>)
    requires WellFormed(alnum, Call(name, args)) && Separates(alnum, sep) && Ordinary(alnum)
    ensures var text := Print(sep, Call(name, args));
            Extract(alnum, text, 0) == Some([Match(0, |text|, Raw(sep, Call(name, args), 0))])
  {
    var text, notes := Print(sep, Call(name, args)), Raw(sep, Call(name, args), 0);
    PrintedScans(alnum, sep, name, args);
    hide Print, Raw, WellFormed, ScanCall, Find, KeepAt;
    assert Extract(alnum, text, |text|) == Some([]) && [Match(0, |text|, notes)] + [] == [Match(0, |text|, notes)];
  }

  /** And the program's repair of it is the same call printed with every quote escaped. */
  lemma RepairRoundTrip(alnum: set<char>, sep: string, name: string, args: seq<Arg>)
    requires WellFormed(alnum, Call(name, args)) && Separates(alnum, sep) && Ordinary(alnum)
    ensures InsertAll(Print(sep, Call(name, args)), Raw(sep, Call(name, args), 0), 0)
         == Print(sep, Clean(Call(name, args)))
  {
    var text, notes := Print(sep, Call(name, args)), Raw(sep, Call(name, args), 0);
    var m := Match(0, |text|, notes);
    PrintedScans(alnum, sep, name, args);
    hide Print, Raw, Clean, WellFormed, ScanCall, Find, KeepAt, Copy;
    SingleRepairIff(alnum, text, m);
    RepairedIsCopy(alnum, text, m);
    assert text[0..|text|] == text;
    hide InsertAll, Repaired;
  }
}

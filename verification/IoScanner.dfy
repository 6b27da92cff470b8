// Finding `keep.f(...)` calls in a rendered template
// (keep/iohandler/iohandler.py, extract_keep_functions).
//
// `alnum` stands for the characters Python's str.isalnum accepts.
module IoScanner {
  import opened Wrappers

  /** The scanner inside a call: parentheses still open, the quote of the string it is
      in, and whether the previous character was an escaping backslash. */
  datatype Mode = Mode(depth: nat, quote: Option<char>, escape: bool)

  const Begin: Mode := Mode(1, None, false)

  predicate IsQuote(c: char) {
    c == '"' || c == '\''
  }

  /** A quote that would end the string it is in, if what follows allows it. */
  predicate AtQuote(text: string, i: nat, m: Mode)
    requires i < |text|
  {
    m.quote == Some(text[i]) && IsQuote(text[i]) && !m.escape
  }

  /** Looking one past the end of the text raises an IndexError. */
  predicate Crashes(text: string, i: nat, m: Mode)
    requires i < |text|
  {
    AtQuote(text, i, m) && i + 1 == |text|
  }

  /** The quote is followed by a letter, digit or space: it is taken for part of the
      string and noted for escaping. */
  predicate Records(alnum: set<char>, text: string, i: nat, m: Mode)
    requires i < |text|
  {
    AtQuote(text, i, m) && i + 1 < |text| && (text[i + 1] in alnum || text[i + 1] == ' ')
  }

  /** The mode after one more character. */
  function Next(alnum: set<char>, text: string, i: nat, m: Mode): Mode
    requires i < |text|
  {
    var c := text[i];
    if c == '\\' && m.quote.Some? && !m.escape then m.(escape := true)
    else if IsQuote(c) then
      if m.quote.None? then m.(quote := Some(c), escape := false)
      else if AtQuote(text, i, m) && !Records(alnum, text, i, m) then m.(quote := None, escape := false)
      else m.(escape := false)
    else if c == '(' && m.quote.None? then m.(depth := m.depth + 1, escape := false)
    else if c == ')' && m.quote.None? && m.depth > 0 then m.(depth := m.depth - 1, escape := false)
    else m.(escape := false)
  }

  predicate Done(m: Mode) {
    m.depth == 0 && m.quote.None?
  }

  /** How the scan of one call ends. */
  datatype CallEnd = Crash | Unclosed | Closed(end: nat, escapes: seq<nat>)

  function ScanCall(alnum: set<char>, text: string, i: nat, m: Mode, escapes: seq<nat>): CallEnd
    requires i <= |text|
    decreases |text| - i
  {
    if Done(m) then Closed(i, escapes)
    else if i == |text| then Unclosed
    else if Crashes(text, i, m) then Crash
    else ScanCall(alnum, text, i + 1, Next(alnum, text, i, m),
                  if Records(alnum, text, i, m) then escapes + [i] else escapes)
  }

  /** `text.find(c, i)`; the text's length when there is none. */
  function Find(text: string, c: char, i: nat): (k: nat)
    requires i <= |text|
    ensures i <= k <= |text|
    ensures k < |text| ==> text[k] == c
    ensures forall j :: i <= j < k ==> text[j] != c
    decreases |text| - i
  {
    if i == |text| || text[i] == c then i else Find(text, c, i + 1)
  }

  /** `text[i : i + 5] == "keep."` */
  predicate KeepAt(text: string, i: nat) {
    i + 5 <= |text| && text[i..i + 5] == "keep."
  }

  /** A found call: where it starts and ends, and the quotes to escape. */
  datatype Match = Match(start: nat, end: nat, escapes: seq<nat>)

  lemma {:induction false} ScanStays(alnum: set<char>, text: string, i: nat, m: Mode, escapes: seq<nat>)
    requires i <= |text|
    ensures var r := ScanCall(alnum, text, i, m, escapes); r.Closed? ==> i <= r.end <= |text|
    decreases |text| - i
  {
    if !Done(m) && i < |text| && !Crashes(text, i, m) {
      ScanStays(alnum, text, i + 1, Next(alnum, text, i, m),
                if Records(alnum, text, i, m) then escapes + [i] else escapes);
    }
  }

  /** All calls from position `i` on; None is the IndexError. */
  function Extract(alnum: set<char>, text: string, i: nat): Option<seq<Match>>
    decreases |text| - i
  {
    if i >= |text| then Some([])
    else if KeepAt(text, i) then
      var f := Find(text, '(', i);
      if f == |text| then Extract(alnum, text, i + 5)
      else
        ScanStays(alnum, text, f + 1, Begin, []);
        match ScanCall(alnum, text, f + 1, Begin, [])
        case Crash => None
        case Unclosed => Some([])
        case Closed(end, escapes) =>
          match Extract(alnum, text, end)
          case None => None
          case Some(rest) => Some([Match(i, end, escapes)] + rest)
    else Extract(alnum, text, i + 1)
  }

  // ---- The program's two nested loops ----

  method ScanCallLoop(alnum: set<char>, text: string, start: nat)
    returns (crashed: bool, i: nat, depth: nat, escapes: seq<nat>)
    requires start <= |text|
    ensures match ScanCall(alnum, text, start, Begin, [])
            case Crash => crashed
            case Unclosed => !crashed && i == |text| && depth > 0
            case Closed(end, found) => !crashed && i == end && depth == 0 && escapes == found
  {
    i := start;
    depth, escapes, crashed := 1, [], false;
    var inString, escapeNext, quoteChar := false, false, ' ';
    ghost var m := Begin;
    while i < |text| && (depth > 0 || inString)
      invariant start <= i <= |text|
      invariant m == Mode(depth, if inString then Some(quoteChar) else None, escapeNext)
      invariant depth == 0 ==> !inString
      invariant inString ==> IsQuote(quoteChar)
      invariant ScanCall(alnum, text, start, Begin, []) == ScanCall(alnum, text, i, m, escapes)
    {
      m := Next(alnum, text, i, m);
      if text[i] == '\\' && inString && !escapeNext {
        escapeNext := true;
        i := i + 1;
        continue;
      } else if IsQuote(text[i]) {
        if !inString {
          inString, quoteChar := true, text[i];
        } else if text[i] == quoteChar && !escapeNext {
          if i + 1 == |text| {
            crashed := true;
            return;
          }
          if text[i + 1] !in alnum && text[i + 1] != ' ' {
            inString := false;
          } else {
            escapes := escapes + [i];
          }
        }
      } else if text[i] == '(' && !inString {
        depth := depth + 1;
      } else if text[i] == ')' && !inString {
        depth := depth - 1;
      }
      escapeNext := false;
      i := i + 1;
    }
  }

  /** The texts and quotes of the given matches. */
  ghost predicate Texts(text: string, ms: seq<Match>, found: seq<(string, seq<nat>)>) {
    && |found| == |ms|
    && forall k :: 0 <= k < |ms| ==>
         (ms[k].start <= ms[k].end <= |text| && found[k] == (text[ms[k].start..ms[k].end], ms[k].escapes))
  }

  function Before(ms: seq<Match>, rest: Option<seq<Match>>): Option<seq<Match>> {
    match rest
    case None => None
    case Some(more) => Some(ms + more)
  }

  lemma BeforeBefore(a: seq<Match>, b: seq<Match>, rest: Option<seq<Match>>)
    ensures Before(a, Before(b, rest)) == Before(a + b, rest) && Before([], rest) == rest
  {
    if rest.Some? {
      assert a + (b + rest.value) == (a + b) + rest.value && [] + rest.value == rest.value;
    }
  }

  /** `extract_keep_functions`: the calls found, each with the text it covers. */
  method ExtractKeepFunctions(alnum: set<char>, text: string) returns (found: Option<seq<(string, seq<nat>)>>)
    ensures match Extract(alnum, text, 0)
            case None => found == None
            case Some(ms) => found.Some? && Texts(text, ms, found.value)
  {
    hide KeepAt, ScanCall, Find;
    var matches: seq<(string, seq<nat>)> := [];
    ghost var ms: seq<Match> := [];
    var i := 0;
    BeforeBefore([], [], Extract(alnum, text, 0));
    while i < |text|
      invariant Texts(text, ms, matches)
      invariant Extract(alnum, text, 0) == Before(ms, Extract(alnum, text, i))
      decreases |text| - i
    {
      if KeepAt(text, i) {
        var start := i;
        var funcStart := Find(text, '(', start);
        if funcStart < |text| {
          ScanStays(alnum, text, funcStart + 1, Begin, []);
          var crashed, end, depth, escapes := ScanCallLoop(alnum, text, funcStart + 1);
          if crashed {
            return None;
          }
          i := end;
          if depth == 0 {
            BeforeBefore(ms, [Match(start, end, escapes)], Extract(alnum, text, end));
            matches := matches + [(text[start..i], escapes)];
            ms := ms + [Match(start, end, escapes)];
          }
        } else {
          i := i + 5;
        }
      } else {
        i := i + 1;
      }
    }
    assert ms + [] == ms;
    found := Some(matches);
  }
}

// What a found call is: on any text that scans, the matches are disjoint and in order,
// and each ends where its parentheses, counted outside strings, first balance.
module IoMatches {
  import opened Wrappers
  import opened IoScanner

  /** The scanner's mode in front of position `k`, for a call whose parenthesis is at `f`. */
  function ModeAt(alnum: set<char>, text: string, f: nat, k: nat): Mode
    requires f < k <= |text|
  {
    if k == f + 1 then Begin else Next(alnum, text, k - 1, ModeAt(alnum, text, f, k - 1))
  }

  /** How often `c` occurs outside strings between the parenthesis at `f` and `k`. */
  function CountOutside(alnum: set<char>, text: string, f: nat, k: nat, c: char): nat
    requires f < k <= |text|
  {
    if k == f + 1 then 0
    else CountOutside(alnum, text, f, k - 1, c)
         + (if text[k - 1] == c && ModeAt(alnum, text, f, k - 1).quote.None? then 1 else 0)
  }

  /** The parentheses since `f`, counted outside strings, are balanced at `k`. */
  predicate Balanced(alnum: set<char>, text: string, f: nat, k: nat)
    requires f < k <= |text|
  {
    1 + CountOutside(alnum, text, f, k, '(') == CountOutside(alnum, text, f, k, ')')
  }

  /** The quotes between `f` and `k` that were noted for escaping, in order. */
  function RecordedUpTo(alnum: set<char>, text: string, f: nat, k: nat): seq<nat>
    requires f < k <= |text|
  {
    if k == f + 1 then []
    else RecordedUpTo(alnum, text, f, k - 1)
         + (if Records(alnum, text, k - 1, ModeAt(alnum, text, f, k - 1)) then [k - 1] else [])
  }

  /** The scan of the call at `f` has come to `k` without balancing the parentheses. */
  ghost predicate StillOpen(alnum: set<char>, text: string, f: nat, k: nat)
    requires f < k <= |text|
  {
    forall j :: f < j < k ==> !Balanced(alnum, text, f, j)
  }

  /** While the call is open, the depth is the balance of the parentheses, and the
      scanner is done exactly when they balance. */
  lemma {:induction false} DepthIsBalance(alnum: set<char>, text: string, f: nat, k: nat)
    requires f < k <= |text| && StillOpen(alnum, text, f, k)
    ensures var m := ModeAt(alnum, text, f, k);
            && m.depth == 1 + CountOutside(alnum, text, f, k, '(') - CountOutside(alnum, text, f, k, ')')
            && (Done(m) <==> Balanced(alnum, text, f, k))
            && (m.depth == 0 ==> m.quote.None?)
            && (m.quote.Some? ==> IsQuote(m.quote.value))
  {
    if k > f + 1 {
      DepthIsBalance(alnum, text, f, k - 1);
      assert !Balanced(alnum, text, f, k - 1);
    }
  }

  /** The text ends with a quote that would end the string it is in, if the scan could look
      at the character behind it. */
  predicate EndsAtQuote(alnum: set<char>, text: string, f: nat)
    requires f < |text|
  {
    f + 1 < |text| &&
    var last, m := text[|text| - 1], ModeAt(alnum, text, f, |text| - 1);
    (last == '\'' || last == '"') && m.quote == Some(last) && !m.escape
  }

  /** From a point where the call is open, the scan closes at the first balanced point; it
      raises if there is none and the text ends at such a quote. */
  lemma {:induction false} ScanFindsBalance(alnum: set<char>, text: string, f: nat, k: nat)
    requires f < k <= |text| && StillOpen(alnum, text, f, k)
    ensures match ScanCall(alnum, text, k, ModeAt(alnum, text, f, k), RecordedUpTo(alnum, text, f, k))
            case Crash => StillOpen(alnum, text, f, |text|) && EndsAtQuote(alnum, text, f)
            case Unclosed =>
              StillOpen(alnum, text, f, |text|) && !Balanced(alnum, text, f, |text|)
              && (k < |text| ==> !EndsAtQuote(alnum, text, f))
            case Closed(end, escapes) =>
              && k <= end <= |text| && StillOpen(alnum, text, f, end) && Balanced(alnum, text, f, end)
              && escapes == RecordedUpTo(alnum, text, f, end)
    decreases |text| - k
  {
    var m := ModeAt(alnum, text, f, k);
    DepthIsBalance(alnum, text, f, k);
    if !Done(m) && k < |text| && !Crashes(text, k, m) {
      assert RecordedUpTo(alnum, text, f, k) + [] == RecordedUpTo(alnum, text, f, k);
      ScanFindsBalance(alnum, text, f, k + 1);
    }
  }

  /** One match: it starts with "keep.", its parenthesis is the first one after that, it
      ends at the first point where the parentheses balance, and its escapes are the
      quotes noted on the way. */
  ghost predicate GoodMatch(alnum: set<char>, text: string, m: Match) {
    && m.start < m.end <= |text| && KeepAt(text, m.start)
    && var f := Find(text, '(', m.start);
       && f < m.end && StillOpen(alnum, text, f, m.end) && Balanced(alnum, text, f, m.end)
       && m.escapes == RecordedUpTo(alnum, text, f, m.end)
  }

  /** The match is what the scan from its parenthesis came to. */
  ghost predicate Scanned(alnum: set<char>, text: string, m: Match) {
    && m.start < |text| && KeepAt(text, m.start)
    && var f := Find(text, '(', m.start);
       f < |text| && ScanCall(alnum, text, f + 1, Begin, []) == Closed(m.end, m.escapes)
  }

  lemma ScannedIsGood(alnum: set<char>, text: string, m: Match)
    requires Scanned(alnum, text, m)
    ensures GoodMatch(alnum, text, m)
  {
    ScanFindsBalance(alnum, text, Find(text, '(', m.start), Find(text, '(', m.start) + 1);
  }

  /** The matches are calls, each starting at or after the end of the one before. */
  ghost predicate GoodFrom(alnum: set<char>, text: string, ms: seq<Match>, i: nat) {
    ms != [] ==> Scanned(alnum, text, ms[0]) && i <= ms[0].start && GoodFrom(alnum, text, ms[1..], ms[0].end)
  }

  lemma {:induction false} ExtractGood(alnum: set<char>, text: string, i: nat)
    ensures Extract(alnum, text, i).Some? ==> GoodFrom(alnum, text, Extract(alnum, text, i).value, i)
    decreases |text| - i
  {
    hide ScanCall, Find, KeepAt, GoodFrom;
    if i >= |text| {
      NoneGood(alnum, text, i);
    } else if KeepAt(text, i) {
      var f := Find(text, '(', i);
      if f == |text| {
        ExtractGood(alnum, text, i + 5);
        GoodEarlier(alnum, text, i, i + 5);
      } else {
        var r := ScanCall(alnum, text, f + 1, Begin, []);
        ScanStays(alnum, text, f + 1, Begin, []);
        NoneGood(alnum, text, i);
        if r.Closed? && Extract(alnum, text, r.end).Some? {
          ExtractGood(alnum, text, r.end);
          GoodMore(alnum, text, Match(i, r.end, r.escapes), Extract(alnum, text, r.end).value);
        }
      }
    } else {
      ExtractGood(alnum, text, i + 1);
      GoodEarlier(alnum, text, i, i + 1);
    }
  }

  lemma NoneGood(alnum: set<char>, text: string, i: nat)
    ensures GoodFrom(alnum, text, [], i)
  {}

  lemma GoodEarlier(alnum: set<char>, text: string, i: nat, j: nat)
    requires i <= j
    ensures forall ms :: GoodFrom(alnum, text, ms, j) ==> GoodFrom(alnum, text, ms, i)
  {
    hide Scanned;
  }

  lemma GoodMore(alnum: set<char>, text: string, first: Match, rest: seq<Match>)
    requires Scanned(alnum, text, first) && GoodFrom(alnum, text, rest, first.end)
    ensures GoodFrom(alnum, text, [first] + rest, first.start)
  {
    hide Scanned;
    assert ([first] + rest)[1..] == rest;
  }

  lemma {:induction false} GoodFromAll(alnum: set<char>, text: string, ms: seq<Match>, i: nat, k: nat)
    requires GoodFrom(alnum, text, ms, i) && k < |ms|
    ensures Scanned(alnum, text, ms[k]) && GoodMatch(alnum, text, ms[k]) && i <= ms[k].start
    ensures forall j :: 0 <= j < k ==> ms[j].end <= ms[k].start
    decreases k
  {
    hide Scanned, GoodMatch;
    ScannedIsGood(alnum, text, ms[0]);
    if k > 0 {
      ScannedIsGood(alnum, text, ms[1]);
      GoodFromAll(alnum, text, ms[1..], ms[0].end, k - 1);
      assert forall j :: 1 <= j < k ==> ms[j] == ms[1..][j - 1];
    }
  }

  /** On any text that scans without an error: every match is a call, and the matches
      are disjoint and in order. */
  lemma MatchesAreCalls(alnum: set<char>, text: string)
    ensures match Extract(alnum, text, 0)
            case None => true
            case Some(ms) =>
              && (forall k :: 0 <= k < |ms| ==> GoodMatch(alnum, text, ms[k]))
              && (forall j, k :: 0 <= j < k < |ms| ==> ms[j].end <= ms[k].start)
  {
    ExtractGood(alnum, text, 0);
    if Extract(alnum, text, 0).Some? {
      var ms := Extract(alnum, text, 0).value;
      forall k | 0 <= k < |ms|
        ensures GoodMatch(alnum, text, ms[k])
        ensures forall j :: 0 <= j < k ==> ms[j].end <= ms[k].start
      {
        GoodFromAll(alnum, text, ms, 0, k);
      }
    }
  }

  /** The first "keep." that has a parenthesis after it is the first match, if its
      parentheses balance; if they do not, there is no match at all. */
  lemma {:induction false} FirstCallIsFound(alnum: set<char>, text: string, i: nat, start: nat)
    requires i <= start && KeepAt(text, start) && Find(text, '(', start) < |text|
    requires forall j :: i <= j < start ==> !KeepAt(text, j)
    ensures var r := ScanCall(alnum, text, Find(text, '(', start) + 1, Begin, []);
            match Extract(alnum, text, i)
            case None => r.Crash? || r.Closed?
            case Some(ms) =>
              (ms != [] <==> r.Closed?) && (r.Closed? ==> ms[0] == Match(start, r.end, r.escapes))
    decreases start - i
  {
    ScanStays(alnum, text, Find(text, '(', start) + 1, Begin, []);
    if i < start {
      FirstCallIsFound(alnum, text, i + 1, start);
    }
  }
}

// Repairing a call whose strings contain unescaped quotes
// (keep/iohandler/iohandler.py, parse): a backslash is inserted at each noted quote.
module IoRepair {
  import opened Wrappers
  import opened IoScanner
  import opened IoMatches

  // ---- The insertions the program makes ----

  /** `token[:k] + "\\" + token[k:]`, with Python's clamping of slices. */
  function Insert(token: string, k: nat): string {
    if k <= |token| then token[..k] + "\\" + token[k..] else token + "\\"
  }

  /** The branch for a single call: positions move on by one per insertion. */
  function InsertAll(token: string, escapes: seq<nat>, counter: nat): string
    decreases escapes
  {
    if escapes == [] then token
    else InsertAll(Insert(token, escapes[0] + counter), escapes[1..], counter + 1)
  }

  /** The branch for several calls: positions are used as they are. */
  function InsertUnmoved(token: string, escapes: seq<nat>): string
    decreases escapes
  {
    if escapes == [] then token else InsertUnmoved(Insert(token, escapes[0]), escapes[1..])
  }

  method RepairSingle(token: string, escapes: seq<nat>) returns (repaired: string)
    ensures repaired == InsertAll(token, escapes, 0)
  {
    repaired := token;
    var escapesCounter := 0;
    while escapesCounter < |escapes|
      invariant 0 <= escapesCounter <= |escapes|
      invariant InsertAll(token, escapes, 0) == InsertAll(repaired, escapes[escapesCounter..], escapesCounter)
    {
      assert escapes[escapesCounter..][1..] == escapes[escapesCounter + 1..];
      repaired := Insert(repaired, escapes[escapesCounter] + escapesCounter);
      escapesCounter := escapesCounter + 1;
    }
  }

  method RepairMany(token: string, escapes: seq<nat>) returns (repaired: string)
    ensures repaired == InsertUnmoved(token, escapes)
  {
    repaired := token;
    for k := 0 to |escapes|
      invariant InsertUnmoved(token, escapes) == InsertUnmoved(repaired, escapes[k..])
    {
      assert escapes[k..][1..] == escapes[k + 1..];
      repaired := Insert(repaired, escapes[k]);
    }
  }

  // ---- The text a repair should give ----

  /** The rest of the call, copied while scanning it, with a backslash in front of every
      noted quote. */
  function Copy(alnum: set<char>, text: string, i: nat, m: Mode): string
    requires i <= |text|
    decreases |text| - i
  {
    if Done(m) || i == |text| then ""
    else (if Records(alnum, text, i, m) then "\\" else "") + [text[i]] + Copy(alnum, text, i + 1, Next(alnum, text, i, m))
  }

  /** The noted quotes from here on. */
  function Noted(alnum: set<char>, text: string, i: nat, m: Mode): seq<nat>
    requires i <= |text|
    decreases |text| - i
  {
    if Done(m) || i == |text| then []
    else (if Records(alnum, text, i, m) then [i] else []) + Noted(alnum, text, i + 1, Next(alnum, text, i, m))
  }

  lemma {:induction false} ScanNotes(alnum: set<char>, text: string, i: nat, m: Mode, escapes: seq<nat>)
    requires i <= |text|
    ensures var r := ScanCall(alnum, text, i, m, escapes);
            r.Closed? ==> r.escapes == escapes + Noted(alnum, text, i, m)
    decreases |text| - i
  {
    if !Done(m) && i < |text| && !Crashes(text, i, m) {
      var now := if Records(alnum, text, i, m) then [i] else [];
      var rest := Noted(alnum, text, i + 1, Next(alnum, text, i, m));
      ScanNotes(alnum, text, i + 1, Next(alnum, text, i, m), escapes + now);
      assert (escapes + now) + rest == escapes + (now + rest);
      assert escapes + [] == escapes;
    } else {
      assert escapes + [] == escapes;
    }
  }

  /** Positions in this range, in order, that hold quotes. */
  ghost predicate QuotesFrom(text: string, ns: seq<nat>, i: nat) {
    && (forall k :: 0 <= k < |ns| ==> i <= ns[k] < |text| && IsQuote(text[ns[k]]))
    && (forall j, k :: 0 <= j < k < |ns| ==> ns[j] < ns[k])
  }

  lemma QuoteFirst(text: string, ns: seq<nat>, i: nat)
    requires QuotesFrom(text, ns, i + 1) && i < |text|
    ensures QuotesFrom(text, ns, i)
    ensures IsQuote(text[i]) ==> QuotesFrom(text, [i] + ns, i)
  {}

  lemma {:induction false} NotedAscends(alnum: set<char>, text: string, i: nat, m: Mode)
    requires i <= |text|
    ensures QuotesFrom(text, Noted(alnum, text, i, m), i)
    decreases |text| - i
  {
    if !Done(m) && i < |text| {
      var rest := Noted(alnum, text, i + 1, Next(alnum, text, i, m));
      NotedAscends(alnum, text, i + 1, Next(alnum, text, i, m));
      QuoteFirst(text, rest, i);
      assert [] + rest == rest;
    }
  }

  /** Positions in the token instead of in the whole text; none precedes the token. */
  function Relative(escapes: seq<nat>, start: nat): (r: seq<nat>)
    ensures |r| == |escapes|
  {
    if escapes == [] then []
    else [if escapes[0] >= start then escapes[0] - start else 0] + Relative(escapes[1..], start)
  }

  lemma {:induction false} RelativeAt(escapes: seq<nat>, start: nat, k: nat)
    requires k < |escapes| && start <= escapes[k]
    ensures Relative(escapes, start)[k] == escapes[k] - start
  {
    if k > 0 {
      RelativeAt(escapes[1..], start, k - 1);
    }
  }

  // ---- Rescanning a repaired call ----

  /** Strings only stand inside open parentheses, escapes only inside strings. */
  predicate Sound(m: Mode) {
    (m.escape ==> m.quote.Some?) && (m.depth == 0 ==> m.quote.None?)
  }

  /** A noted quote, once escaped, is just a character of its string; every other
      character is read as before. */
  lemma {:induction false} RescanCopy(alnum: set<char>, text: string, i: nat, m: Mode, escapes: seq<nat>,
                                      copy: string, p: nat, found: seq<nat>)
    requires i <= |text| && p <= |copy| && copy[p..] == Copy(alnum, text, i, m)
    requires ScanCall(alnum, text, i, m, escapes).Closed?
    requires Sound(m)
    ensures ScanCall(alnum, copy, p, m, found) == Closed(|copy|, found)
    decreases |text| - i
  {
    if Done(m) {
      assert |copy[p..]| == 0;
      return;
    }
    var next := Next(alnum, text, i, m);
    var rest := Copy(alnum, text, i + 1, next);
    var escapes' := if Records(alnum, text, i, m) then escapes + [i] else escapes;
    if Records(alnum, text, i, m) {
      assert copy[p..] == ['\\', text[i]] + rest;
      assert copy[p] == copy[p..][0] == '\\' && copy[p + 1] == copy[p..][1] == text[i];
      assert copy[p + 2..] == copy[p..][2..] == rest;
      RescanCopy(alnum, text, i + 1, next, escapes', copy, p + 2, found);
      EscapedQuote(alnum, text, i, m, copy, p);
      assert ScanCall(alnum, copy, p, m, found) == ScanCall(alnum, copy, p + 1, m.(escape := true), found);
      assert ScanCall(alnum, copy, p + 1, m.(escape := true), found) == ScanCall(alnum, copy, p + 2, next, found);
    } else {
      assert copy[p..] == [text[i]] + rest;
      assert copy[p] == copy[p..][0] == text[i];
      assert copy[p + 1..] == copy[p..][1..] == rest;
      RescanCopy(alnum, text, i + 1, next, escapes', copy, p + 1, found);
      SameCharacter(alnum, text, i, m, copy, p);
    }
  }

  lemma EscapedQuote(alnum: set<char>, text: string, i: nat, m: Mode, copy: string, p: nat)
    requires i < |text| && Records(alnum, text, i, m) && p + 1 < |copy| && copy[p] == '\\' && copy[p + 1] == text[i]
    ensures !Crashes(copy, p, m) && !Records(alnum, copy, p, m) && Next(alnum, copy, p, m) == m.(escape := true)
    ensures var e := m.(escape := true);
            !Crashes(copy, p + 1, e) && !Records(alnum, copy, p + 1, e)
            && Next(alnum, copy, p + 1, e) == Next(alnum, text, i, m)
    ensures !Done(m) && !Done(m.(escape := true))
  {}

  /** A closing quote is followed by the same character in the copy: the character after
      it is outside the string, so nothing is inserted before it. */
  lemma SameCharacter(alnum: set<char>, text: string, i: nat, m: Mode, copy: string, p: nat)
    requires i < |text| && p < |copy| && copy[p] == text[i] && !Records(alnum, text, i, m) && !Crashes(text, i, m)
    requires !Done(m) && Sound(m)
    requires copy[p + 1..] == Copy(alnum, text, i + 1, Next(alnum, text, i, m))
    ensures !Crashes(copy, p, m) && !Records(alnum, copy, p, m)
    ensures Next(alnum, copy, p, m) == Next(alnum, text, i, m)
  {
    if AtQuote(text, i, m) {
      var next := Next(alnum, text, i, m);
      assert next.quote == None && !Records(alnum, text, i + 1, next);
      assert copy[p + 1] == copy[p + 1..][0] == text[i + 1];
    }
  }

  // ---- The program's insertions against the repair they should make ----

  /** What precedes all the insertions stays. */
  lemma {:induction false} InsertAllKeeps(token: string, escapes: seq<nat>, counter: nat, k: nat)
    requires k <= |token| && forall j :: 0 <= j < |escapes| ==> k <= escapes[j] + counter
    ensures |InsertAll(token, escapes, counter)| == |token| + |escapes|
    ensures InsertAll(token, escapes, counter)[..k] == token[..k]
    decreases escapes
  {
    if escapes != [] {
      var t := Insert(token, escapes[0] + counter);
      InsertAllKeeps(t, escapes[1..], counter + 1, k);
      assert t[..k] == token[..k];
    }
  }

  /** Inserting at the noted quotes, counted from the start of the token, copies the
      call: `out` is what is repaired so far. */
  lemma {:induction false} InsertionsCopy(alnum: set<char>, text: string, i: nat, m: Mode, escapes: seq<nat>,
                                          start: nat, counter: nat, out: string)
    requires start <= i <= |text| && |out| == i - start + counter
    requires ScanCall(alnum, text, i, m, escapes).Closed?
    ensures var end, ns := ScanCall(alnum, text, i, m, escapes).end, Noted(alnum, text, i, m);
            && i <= end <= |text|
            && InsertAll(out + text[i..end], Relative(ns, start), counter) == out + Copy(alnum, text, i, m)
    decreases |text| - i
  {
    var end := ScanCall(alnum, text, i, m, escapes).end;
    ScanStays(alnum, text, i, m, escapes);
    Unfold(alnum, text, i, m, escapes);
    hide ScanCall, Copy, Noted, Records, Next, InsertAll, Relative, Crashes, Done;
    if !Done(m) {
      var next := Next(alnum, text, i, m);
      var rest, copy := Noted(alnum, text, i + 1, next), Copy(alnum, text, i + 1, next);
      ScanStays(alnum, text, i + 1, next, if Records(alnum, text, i, m) then escapes + [i] else escapes);
      assert text[i..end] == [text[i]] + text[i + 1..end];
      if Records(alnum, text, i, m) {
        InsertionsCopy(alnum, text, i + 1, next, escapes + [i], start, counter + 1, out + "\\" + [text[i]]);
        InsertHere(text[i], text[i + 1..end], i, rest, start, counter, out, copy);
      } else {
        InsertionsCopy(alnum, text, i + 1, next, escapes, start, counter, out + [text[i]]);
        Associate(out, text[i], copy);
        Associate(out, text[i], text[i + 1..end]);
      }
    } else {
      InsertNothing(text, i, out, start, counter);
    }
  }

  lemma InsertNothing(text: string, i: nat, out: string, start: nat, counter: nat)
    requires i <= |text|
    ensures InsertAll(out + text[i..i], Relative([], start), counter) == out + ""
  {
    assert text[i..i] == "" && out + "" == out;
  }

  /** One character of a scan that closes, of the copy, and of the noted positions. */
  lemma Unfold(alnum: set<char>, text: string, i: nat, m: Mode, escapes: seq<nat>)
    requires i <= |text| && ScanCall(alnum, text, i, m, escapes).Closed?
    ensures Done(m) ==> ScanCall(alnum, text, i, m, escapes) == Closed(i, escapes)
    ensures Done(m) ==> Copy(alnum, text, i, m) == "" && Noted(alnum, text, i, m) == []
    ensures !Done(m) ==> i < |text|
    ensures !Done(m) ==>
              var next, notes := Next(alnum, text, i, m), Records(alnum, text, i, m);
              && ScanCall(alnum, text, i, m, escapes)
                 == ScanCall(alnum, text, i + 1, next, if notes then escapes + [i] else escapes)
              && Copy(alnum, text, i, m)
                 == (if notes then "\\" + [text[i]] else [text[i]]) + Copy(alnum, text, i + 1, next)
              && Noted(alnum, text, i, m) == (if notes then [i] else []) + Noted(alnum, text, i + 1, next)
              && (!notes ==> Noted(alnum, text, i, m) == Noted(alnum, text, i + 1, next))
  {
    if !Done(m) {
      assert "" + [text[i]] == [text[i]];
    }
  }

  /** `tail` is the rest of the token after the character `c` at position `i`. */
  lemma InsertHere(c: char, tail: string, i: nat, rest: seq<nat>, start: nat, counter: nat, out: string, copy: string)
    requires start <= i && |out| == i - start + counter
    requires InsertAll((out + "\\" + [c]) + tail, Relative(rest, start), counter + 1) == (out + "\\" + [c]) + copy
    ensures InsertAll(out + ([c] + tail), Relative([i] + rest, start), counter) == out + ("\\" + [c] + copy)
  {
    RelativeFirst(i, rest, start);
    InsertFirst(out + ([c] + tail), i - start, Relative(rest, start), counter);
    InsertBetween(out, c, tail);
    Associate(out, c, copy);
    hide *;
  }

  lemma Associate(out: string, c: char, copy: string)
    ensures out + ("\\" + [c] + copy) == (out + "\\" + [c]) + copy
    ensures out + ([c] + copy) == (out + [c]) + copy
  {}

  lemma RelativeFirst(i: nat, rest: seq<nat>, start: nat)
    requires start <= i
    ensures Relative([i] + rest, start) == [i - start] + Relative(rest, start)
  {
    assert ([i] + rest)[1..] == rest;
  }

  lemma InsertFirst(token: string, k: nat, rest: seq<nat>, counter: nat)
    ensures InsertAll(token, [k] + rest, counter) == InsertAll(Insert(token, k + counter), rest, counter + 1)
  {
    assert ([k] + rest)[1..] == rest;
  }

  lemma InsertBetween(out: string, c: char, tail: string)
    ensures Insert(out + ([c] + tail), |out|) == (out + "\\" + [c]) + tail
  {}

  lemma {:induction false} FindSkips(text: string, c: char, i: nat, n: nat)
    requires i <= n <= |text| && forall j :: i <= j < n ==> text[j] != c
    ensures Find(text, c, i) >= n
    decreases n - i
  {
    if i < n {
      FindSkips(text, c, i + 1, n);
    }
  }

  lemma ParenAfterKeep(text: string, start: nat)
    requires KeepAt(text, start)
    ensures Find(text, '(', start) >= start + 5
  {
    var w := text[start..start + 5];
    assert w[0] == text[start] && w[1] == text[start + 1] && w[2] == text[start + 2] && w[3] == text[start + 3]
        && w[4] == text[start + 4];
    FindSkips(text, '(', start, start + 5);
  }

  /** A match's escapes lie inside it. */
  lemma MatchScan(alnum: set<char>, text: string, m: Match)
    requires Scanned(alnum, text, m)
    ensures var f := Find(text, '(', m.start);
            && m.start + 5 <= f < m.end <= |text| && m.escapes == Noted(alnum, text, f + 1, Begin)
            && ScanCall(alnum, text, f + 1, Begin, []) == Closed(m.end, m.escapes) && KeepAt(text, m.start)
    ensures forall k :: 0 <= k < |m.escapes| ==> m.start < m.escapes[k] < m.end && IsQuote(text[m.escapes[k]])
    ensures forall j, k :: 0 <= j < k < |m.escapes| ==> m.escapes[j] < m.escapes[k]
  {
    var f := Find(text, '(', m.start);
    ParenAfterKeep(text, m.start);
    ScanStays(alnum, text, f + 1, Begin, []);
    ScanNotes(alnum, text, f + 1, Begin, []);
    assert [] + Noted(alnum, text, f + 1, Begin) == Noted(alnum, text, f + 1, Begin);
    NotedAscends(alnum, text, f + 1, Begin);
    NotedInside(alnum, text, f + 1, Begin, []);
  }

  lemma {:induction false} NotedInside(alnum: set<char>, text: string, i: nat, m: Mode, escapes: seq<nat>)
    requires i <= |text|
    ensures var r := ScanCall(alnum, text, i, m, escapes);
            r.Closed? ==> forall k :: 0 <= k < |Noted(alnum, text, i, m)| ==> Noted(alnum, text, i, m)[k] < r.end
    decreases |text| - i
  {
    ScanStays(alnum, text, i, m, escapes);
    if !Done(m) && i < |text| && !Crashes(text, i, m) {
      var escapes' := if Records(alnum, text, i, m) then escapes + [i] else escapes;
      ScanStays(alnum, text, i + 1, Next(alnum, text, i, m), escapes');
      NotedInside(alnum, text, i + 1, Next(alnum, text, i, m), escapes');
    }
  }

  /** The call with a backslash in front of every noted quote: the repair that is meant. */
  function Repaired(text: string, m: Match): string
    requires m.start <= m.end <= |text|
  {
    InsertAll(text[m.start..m.end], Relative(m.escapes, m.start), 0)
  }

  /** The repair that is meant, applied to any found call, gives a text that scans as one
      call covering all of it, with nothing left to escape. */
  lemma RepairedScansClean(alnum: set<char>, text: string, m: Match)
    requires Scanned(alnum, text, m)
    ensures m.start <= m.end <= |text|
    ensures var r := Repaired(text, m); Extract(alnum, r, 0) == Some([Match(0, |r|, [])])
  {
    hide *;
    MatchScan(alnum, text, m);
    var f := Find(text, '(', m.start);
    var copy := Copy(alnum, text, f + 1, Begin);
    var head := text[m.start..f + 1];
    RepairedIsCopy(alnum, text, m);
    RescanWhole(alnum, text, f + 1, m, head, copy);
    WholeCall(alnum, text, m.start, f, copy);
  }

  lemma RescanWhole(alnum: set<char>, text: string, i: nat, m: Match, head: string, copy: string)
    requires i <= |text| && copy == Copy(alnum, text, i, Begin)
    requires ScanCall(alnum, text, i, Begin, []) == Closed(m.end, m.escapes)
    ensures ScanCall(alnum, head + copy, |head|, Begin, []) == Closed(|head + copy|, [])
  {
    assert (head + copy)[|head|..] == copy;
    RescanCopy(alnum, text, i, Begin, [], head + copy, |head|, []);
  }

  lemma RepairedIsCopy(alnum: set<char>, text: string, m: Match)
    requires Scanned(alnum, text, m)
    requires m.start <= m.end <= |text|
    ensures var f := Find(text, '(', m.start);
            m.start <= f < |text| && Repaired(text, m) == text[m.start..f + 1] + Copy(alnum, text, f + 1, Begin)
  {
    hide ScanCall, Copy, Noted, InsertAll, Relative, Find, Next, Records, Scanned;
    MatchScan(alnum, text, m);
    var f := Find(text, '(', m.start);
    var head := text[m.start..f + 1];
    Join(text, m.start, f + 1, m.end);
    InsertionsCopy(alnum, text, f + 1, Begin, [], m.start, 0, head);
  }

  lemma Join(text: string, a: nat, b: nat, c: nat)
    requires a <= b <= c <= |text|
    ensures text[a..b] + text[b..c] == text[a..c]
  {}

  /** A call's head followed by something that scans to its end is one call. */
  lemma WholeCall(alnum: set<char>, text: string, start: nat, f: nat, copy: string)
    requires start < |text| && KeepAt(text, start) && f == Find(text, '(', start) && start + 5 <= f < |text|
    requires var head := text[start..f + 1]; ScanCall(alnum, head + copy, |head|, Begin, []) == Closed(|head + copy|, [])
    ensures var r := text[start..f + 1] + copy; Extract(alnum, r, 0) == Some([Match(0, |r|, [])])
  {
    var n := f + 1 - start;
    var r := text[start..f + 1] + copy;
    assert forall j :: 0 <= j < n ==> r[j] == text[start + j];
    assert r[0..5] == text[start..start + 5];
    FindIs(r, '(', 0, n - 1);
    assert Extract(alnum, r, |r|) == Some([]) && [Match(0, |r|, [])] + [] == [Match(0, |r|, [])];
  }

  lemma {:induction false} FindIs(text: string, c: char, i: nat, k: nat)
    requires i <= k < |text| && text[k] == c && forall j :: i <= j < k ==> text[j] != c
    ensures Find(text, c, i) == k
    decreases k - i
  {
    if i < k {
      FindIs(text, c, i + 1, k);
    }
  }

  /** What the program inserts is the repair that is meant exactly when the call starts
      the text or needs no repair: the noted positions count from the start of the text,
      the insertions from the start of the call. */
  lemma SingleRepairIff(alnum: set<char>, text: string, m: Match)
    requires Scanned(alnum, text, m)
    ensures m.start <= m.end <= |text|
    ensures InsertAll(text[m.start..m.end], m.escapes, 0) == Repaired(text, m) <==> m.start == 0 || m.escapes == []
  {
    MatchScan(alnum, text, m);
    var token, relative := text[m.start..m.end], Relative(m.escapes, m.start);
    RelativeAll(m.escapes, m.start);
    if m.start == 0 || m.escapes == [] {
      assert relative == m.escapes;
    } else {
      assert token[relative[0]] == text[m.escapes[0]];
      hide InsertAll, Relative, Find, Scanned;
      WrongPlace(token, m.escapes, relative);
    }
  }

  lemma RelativeAll(escapes: seq<nat>, start: nat)
    requires forall k :: 0 <= k < |escapes| ==> start <= escapes[k]
    ensures forall k :: 0 <= k < |escapes| ==> Relative(escapes, start)[k] == escapes[k] - start
  {
    forall k | 0 <= k < |escapes| ensures Relative(escapes, start)[k] == escapes[k] - start {
      RelativeAt(escapes, start, k);
    }
  }

  /** Insertions that all come too late leave the first quote without its backslash. */
  lemma WrongPlace(token: string, late: seq<nat>, escapes: seq<nat>)
    requires escapes != [] && escapes[0] < |token| && token[escapes[0]] != '\\'
    requires forall j, k :: 0 <= j < k < |escapes| ==> escapes[j] < escapes[k]
    requires forall k :: 0 <= k < |late| ==> escapes[0] < late[k]
    ensures InsertAll(token, late, 0) != InsertAll(token, escapes, 0)
  {
    var k := escapes[0];
    FirstInserted(token, escapes);
    InsertAllKeeps(token, late, 0, k + 1);
    assert InsertAll(token, late, 0)[k] == InsertAll(token, late, 0)[..k + 1][k] == token[..k + 1][k];
  }

  /** The first position gets a backslash. */
  lemma FirstInserted(token: string, escapes: seq<nat>)
    requires escapes != [] && escapes[0] < |token|
    requires forall j, k :: 0 <= j < k < |escapes| ==> escapes[j] < escapes[k]
    ensures |InsertAll(token, escapes, 0)| > escapes[0] && InsertAll(token, escapes, 0)[escapes[0]] == '\\'
  {
    var t := Insert(token, escapes[0]);
    InsertAllKeeps(t, escapes[1..], 1, escapes[0] + 1);
    assert InsertAll(token, escapes, 0)[escapes[0]] == InsertAll(token, escapes, 0)[..escapes[0] + 1][escapes[0]];
  }

  /** A text that starts with a call: repairing its token as the program does gives one
      clean call. */
  lemma EscapeRepair(alnum: set<char>, text: string, ms: seq<Match>)
    requires Extract(alnum, text, 0) == Some(ms) && ms != [] && ms[0].start == 0
    ensures ms[0].end <= |text|
    ensures var r := InsertAll(text[..ms[0].end], ms[0].escapes, 0);
            Extract(alnum, r, 0) == Some([Match(0, |r|, [])])
  {
    ExtractGood(alnum, text, 0);
    SingleRepairIff(alnum, text, ms[0]);
    RepairedScansClean(alnum, text, ms[0]);
    assert text[0..ms[0].end] == text[..ms[0].end];
  }
}

// Repairing several calls in one text, where the positions of earlier insertions are not
// counted (keep/iohandler/iohandler.py, parse), and two texts that are repaired wrongly.
module IoManyRepair {
  import opened Wrappers
  import opened IoScanner
  import opened IoMatches
  import opened IoRepair

  /** From `a` to `b` the text is backslashes only. */
  predicate Backslashes(text: string, a: int, b: int) {
    a >= b || (0 <= a && b <= |text| && forall i :: a <= i < b ==> text[i] == '\\')
  }

  /** With several calls in the text the positions are not even moved on. The insertions
      are right exactly when nothing is to be escaped, or the call starts the text and each
      noted quote has as many backslashes right before it as there are noted quotes before
      it: the insertion comes that much too early, and slips past backslashes only. */
  lemma ManyRepairIff(alnum: set<char>, text: string, m: Match)
    requires m.start <= m.end <= |text| && Scanned(alnum, text, m)
    ensures InsertUnmoved(text[m.start..m.end], m.escapes) == Repaired(text, m)
        <==> || m.escapes == []
             || (m.start == 0
                 && forall k :: 0 <= k < |m.escapes| ==> Backslashes(text, m.escapes[k] - k, m.escapes[k]))
  {
    MatchScan(alnum, text, m);
    hide InsertAll, InsertUnmoved, Relative, Find, Scanned, Backslashes, ScanCall, Noted, KeepAt;
    if m.escapes == [] {
      InsertedNothing(text[m.start..m.end], m.start);
    } else if m.start == 0 {
      FirstCallIff(text, m);
    } else {
      var token, relative := text[m.start..m.end], Relative(m.escapes, m.start);
      RelativeAll(m.escapes, m.start);
      assert token[relative[0]] == text[m.escapes[0]];
      UnmovedWrongPlace(token, m.escapes, relative);
    }
  }

  lemma InsertedNothing(token: string, start: nat)
    ensures InsertUnmoved(token, []) == token == InsertAll(token, Relative([], start), 0)
  {}

  lemma FirstCallIff(text: string, m: Match)
    requires m.start == 0 <= m.end <= |text| && m.escapes != []
    requires forall k :: 0 <= k < |m.escapes| ==> m.escapes[k] < m.end && IsQuote(text[m.escapes[k]])
    requires forall j, k :: 0 <= j < k < |m.escapes| ==> m.escapes[j] < m.escapes[k]
    ensures InsertUnmoved(text[m.start..m.end], m.escapes) == Repaired(text, m)
        <==> forall k :: 0 <= k < |m.escapes| ==> Backslashes(text, m.escapes[k] - k, m.escapes[k])
  {
    hide InsertAll, InsertUnmoved, Relative, Backslashes;
    var token := text[0..m.end];
    RelativeAll(m.escapes, 0);
    assert Relative(m.escapes, 0) == m.escapes;
    forall k | 0 <= k < |m.escapes|
      ensures token[m.escapes[k]] != '\\'
      ensures Backslashes(token, m.escapes[k] - (0 + k), m.escapes[k]) == Backslashes(text, m.escapes[k] - k, m.escapes[k])
    {
      assert token[m.escapes[k]] == text[m.escapes[k]];
      SameBackslashes(text, m.end, m.escapes[k] - k, m.escapes[k]);
    }
    assert token == "" + token[0..];
    UnmovedIff(token, "", 0, m.escapes, 0);
  }

  lemma SameBackslashes(text: string, end: nat, a: int, b: int)
    requires b <= end <= |text|
    ensures Backslashes(text[0..end], a, b) == Backslashes(text, a, b)
  {
    assert forall i :: 0 <= i < end ==> text[0..end][i] == text[i];
  }

  lemma {:induction false} InsertUnmovedKeeps(token: string, escapes: seq<nat>, k: nat)
    requires k <= |token| && forall j :: 0 <= j < |escapes| ==> k <= escapes[j]
    ensures |InsertUnmoved(token, escapes)| == |token| + |escapes|
    ensures InsertUnmoved(token, escapes)[..k] == token[..k]
    decreases escapes
  {
    if escapes != [] {
      var t := Insert(token, escapes[0]);
      InsertUnmovedKeeps(t, escapes[1..], k);
      assert t[..k] == token[..k];
    }
  }

  lemma UnmovedWrongPlace(token: string, late: seq<nat>, escapes: seq<nat>)
    requires escapes != [] && escapes[0] < |token| && token[escapes[0]] != '\\'
    requires forall j, k :: 0 <= j < k < |escapes| ==> escapes[j] < escapes[k]
    requires forall k :: 0 <= k < |late| ==> escapes[0] < late[k]
    ensures InsertUnmoved(token, late) != InsertAll(token, escapes, 0)
  {
    var k := escapes[0];
    FirstInserted(token, escapes);
    InsertUnmovedKeeps(token, late, k + 1);
    assert InsertUnmoved(token, late)[k] == InsertUnmoved(token, late)[..k + 1][k] == token[..k + 1][k];
  }

  // ---- How far an early insertion slips ----

  /** Characters that are not backslashes. */
  function Plain(s: string): nat {
    if s == "" then 0 else (if s[0] == '\\' then 0 else 1) + Plain(s[1..])
  }

  /** The backslashes in front of the character that has `n` others that are none before it. */
  function Lead(s: string, n: nat): nat {
    if s == "" then 0
    else if s[0] == '\\' then 1 + Lead(s[1..], n)
    else if n == 0 then 0
    else Lead(s[1..], n - 1)
  }

  lemma {:induction false} InsertLead(s: string, p: nat, n: nat)
    requires p <= |s|
    ensures Lead(Insert(s, p), n) == Lead(s, n) + (if Plain(s[..p]) <= n then 1 else 0)
    decreases s
  {
    if p == 0 {
      assert Insert(s, 0)[1..] == s && s[..0] == "";
    } else {
      assert Insert(s, p)[0] == s[0] && Insert(s, p)[1..] == Insert(s[1..], p - 1);
      assert s[..p][0] == s[0] && s[..p][1..] == s[1..][..p - 1];
      if s[0] == '\\' {
        InsertLead(s[1..], p - 1, n);
      } else if n > 0 {
        InsertLead(s[1..], p - 1, n - 1);
      }
    }
  }

  lemma {:induction false} PlainGrows(s: string, a: nat, b: nat)
    requires a <= b <= |s|
    ensures Plain(s[..a]) <= Plain(s[..b])
    ensures Plain(s[..a]) == Plain(s[..b]) <==> Backslashes(s, a, b)
    decreases s
  {
    if a > 0 {
      assert s[..a][0] == s[0] && s[..a][1..] == s[1..][..a - 1];
      assert s[..b][0] == s[0] && s[..b][1..] == s[1..][..b - 1];
      PlainGrows(s[1..], a - 1, b - 1);
      TailBackslashes(s, a, b);
    } else if b > 0 {
      assert s[..b][0] == s[0] && s[..b][1..] == s[1..][..b - 1];
      PlainGrows(s[1..], 0, b - 1);
      TailBackslashes(s, 1, b);
      assert s[1..][..0] == "";
    }
  }

  lemma TailBackslashes(s: string, a: nat, b: nat)
    requires 1 <= a <= b <= |s|
    ensures Backslashes(s[1..], a - 1, b - 1) == Backslashes(s, a, b)
  {
    if Backslashes(s[1..], a - 1, b - 1) {
      forall i | a <= i < b ensures s[i] == '\\' {
        assert s[1..][i - 1] == '\\';
      }
    }
  }

  lemma {:induction false} UnmovedLead(s: string, escapes: seq<nat>, n: nat)
    requires forall k :: 0 <= k < |escapes| ==> escapes[k] <= |s|
    ensures Lead(InsertUnmoved(s, escapes), n) >= Lead(s, n)
    decreases escapes
  {
    if escapes != [] {
      InsertLead(s, escapes[0], n);
      UnmovedLead(Insert(s, escapes[0]), escapes[1..], n);
    }
  }

  /** Insertions behind the character leave the backslashes in front of it alone. */
  lemma {:induction false} LaterLead(s: string, escapes: seq<nat>, counter: nat, n: nat)
    requires forall k :: 0 <= k < |escapes| ==> escapes[k] + counter <= |s|
    requires forall j, k :: 0 <= j < k < |escapes| ==> escapes[j] < escapes[k]
    requires escapes != [] ==> Plain(s[..escapes[0] + counter]) > n
    ensures Lead(InsertAll(s, escapes, counter), n) == Lead(s, n)
    decreases escapes
  {
    if escapes != [] {
      var p := escapes[0] + counter;
      var t := Insert(s, p);
      InsertLead(s, p, n);
      if |escapes| > 1 {
        assert t[..p] == s[..p];
        PlainGrows(t, p, escapes[1] + counter + 1);
      }
      LaterLead(t, escapes[1..], counter + 1, n);
    }
  }

  /** Inserting a backslash further to the left, past backslashes only, is the same. */
  lemma SlippedInsert(s: string, a: nat, b: nat)
    requires a <= b <= |s| && Backslashes(s, a, b)
    ensures Insert(s, a) == Insert(s, b)
  {
    var x, y := Insert(s, a), Insert(s, b);
    forall i | 0 <= i < |x| ensures x[i] == y[i] {
    }
  }

  lemma MissedInsert(s: string, escapes: seq<nat>, counter: nat)
    requires escapes != [] && forall k :: 0 <= k < |escapes| ==> escapes[k] + counter <= |s|
    requires forall j, k :: 0 <= j < k < |escapes| ==> escapes[j] < escapes[k]
    requires !Backslashes(s, escapes[0], escapes[0] + counter)
    ensures InsertUnmoved(s, escapes) != InsertAll(s, escapes, counter)
  {
    var e := escapes[0];
    var n := Plain(s[..e]);
    PlainGrows(s, e, e + counter);
    LaterLead(s, escapes, counter, n);
    InsertLead(s, e, n);
    UnmovedLead(Insert(s, e), escapes[1..], n);
  }

  /** After `counter` insertions the text is `pre`, and the token from its last escaped
      quote `q` on; the next insertion comes `counter` characters too early. */
  lemma {:induction false} UnmovedIff(token: string, pre: string, q: nat, escapes: seq<nat>, counter: nat)
    requires q <= |token| && |pre| == q + counter
    requires counter > 0 ==> q < |token| && token[q] != '\\' && counter <= q + 1 && (escapes != [] ==> q < escapes[0])
    requires forall k :: 0 <= k < |escapes| ==> q <= escapes[k] < |token| && token[escapes[k]] != '\\'
    requires forall j, k :: 0 <= j < k < |escapes| ==> escapes[j] < escapes[k]
    ensures InsertUnmoved(pre + token[q..], escapes) == InsertAll(pre + token[q..], escapes, counter)
        <==> forall k :: 0 <= k < |escapes| ==> Backslashes(token, escapes[k] - (counter + k), escapes[k])
    decreases escapes
  {
    hide InsertUnmoved, InsertAll, Insert, Backslashes;
    var s := pre + token[q..];
    if escapes == [] {
      NothingInserted(s, counter);
    } else {
      var e, rest := escapes[0], escapes[1..];
      SlipsIff(token, pre, q, e, counter);
      if Backslashes(s, e, e + counter) {
        SlippedInsert(s, e, e + counter);
        InsertedText(token, pre, q, e, counter);
        UnmovedIff(token, s[..e + counter] + "\\", e, rest, counter + 1);
        Unroll(s, escapes, counter);
        LaterBackslashes(token, escapes, counter);
      } else {
        MissedInsert(s, escapes, counter);
        assert !Backslashes(token, escapes[0] - (counter + 0), escapes[0]);
      }
    }
  }

  lemma NothingInserted(s: string, counter: nat)
    ensures InsertUnmoved(s, []) == InsertAll(s, [], counter)
  {}

  lemma Unroll(s: string, escapes: seq<nat>, counter: nat)
    requires escapes != []
    ensures InsertUnmoved(s, escapes) == InsertUnmoved(Insert(s, escapes[0]), escapes[1..])
    ensures InsertAll(s, escapes, counter) == InsertAll(Insert(s, escapes[0] + counter), escapes[1..], counter + 1)
  {}

  lemma InsertedText(token: string, pre: string, q: nat, e: nat, counter: nat)
    requires q <= e < |token| && |pre| == q + counter
    ensures var s := pre + token[q..];
            e + counter <= |s| && Insert(s, e + counter) == (s[..e + counter] + "\\") + token[e..]
  {
    var s := pre + token[q..];
    assert s[e + counter..] == token[e..];
  }

  lemma SlipsIff(token: string, pre: string, q: nat, e: nat, counter: nat)
    requires q <= e < |token| && |pre| == q + counter
    requires counter > 0 ==> q < e && token[q] != '\\'
    ensures Backslashes(pre + token[q..], e, e + counter) <==> Backslashes(token, e - counter, e)
  {
    var s := pre + token[q..];
    assert forall x :: q <= x < |token| ==> s[x + counter] == token[x];
    if Backslashes(s, e, e + counter) && counter > 0 {
      assert !(e <= q + counter);
      forall i | e - counter <= i < e ensures token[i] == '\\' {
        assert s[i + counter] == '\\';
      }
    }
    if Backslashes(token, e - counter, e) && counter > 0 {
      assert !(e - counter <= q);
      forall i | e <= i < e + counter ensures s[i] == '\\' {
        assert s[i - counter + counter] == token[i - counter];
      }
    }
  }

  lemma LaterBackslashes(token: string, escapes: seq<nat>, counter: nat)
    requires escapes != [] && Backslashes(token, escapes[0] - counter, escapes[0])
    ensures (forall k :: 0 <= k < |escapes| ==> Backslashes(token, escapes[k] - (counter + k), escapes[k]))
        <==> forall k :: 0 <= k < |escapes[1..]| ==>
               Backslashes(token, escapes[1..][k] - (counter + 1 + k), escapes[1..][k])
  {
    hide Backslashes;
    var rest := escapes[1..];
    if forall k :: 0 <= k < |rest| ==> Backslashes(token, rest[k] - (counter + 1 + k), rest[k]) {
      forall k | 0 <= k < |escapes| ensures Backslashes(token, escapes[k] - (counter + k), escapes[k]) {
        if k > 0 {
          assert Backslashes(token, rest[k - 1] - (counter + 1 + (k - 1)), rest[k - 1]);
        }
      }
    }
    if forall k :: 0 <= k < |escapes| ==> Backslashes(token, escapes[k] - (counter + k), escapes[k]) {
      forall k | 0 <= k < |rest| ensures Backslashes(token, rest[k] - (counter + 1 + k), rest[k]) {
        assert Backslashes(token, escapes[k + 1] - (counter + (k + 1)), escapes[k + 1]);
      }
    }
  }

  // ---- Two texts that are repaired wrongly ----

  /** A call with a quote too many in its string, after a blank. */
  const OneQuote: string := " keep.f('a'b')"

  /** A call with two quotes too many, followed by another call. */
  const TwoQuotes: string := "keep.f('a'b'c')keep.f()"

  lemma ScanOneQuote(alnum: set<char>, t: string, f: nat)
    requires f + 7 <= |t| && 'b' in alnum && ')' !in alnum
    requires t[f + 1] == '\'' && t[f + 2] == 'a' && t[f + 3] == '\'' && t[f + 4] == 'b' && t[f + 5] == '\'' && t[f + 6] == ')'
    ensures ScanCall(alnum, t, f + 1, Begin, []) == Closed(f + 7, [f + 3])
  {
    var s, r := Mode(1, Some('\''), false), Closed(f + 7, [f + 3]);
    assert ScanCall(alnum, t, f + 6, Begin, [f + 3]) == r;
    assert ScanCall(alnum, t, f + 5, s, [f + 3]) == r;
    assert ScanCall(alnum, t, f + 4, s, [f + 3]) == r;
    assert [] + [f + 3] == [f + 3];
    assert ScanCall(alnum, t, f + 3, s, []) == r;
    assert ScanCall(alnum, t, f + 2, s, []) == r;
  }

  lemma ScanTwoQuotes(alnum: set<char>, t: string, f: nat)
    requires f + 9 <= |t| && 'b' in alnum && 'c' in alnum && ')' !in alnum
    requires t[f + 1] == '\'' && t[f + 2] == 'a' && t[f + 3] == '\'' && t[f + 4] == 'b' && t[f + 5] == '\''
    requires t[f + 6] == 'c' && t[f + 7] == '\'' && t[f + 8] == ')'
    ensures ScanCall(alnum, t, f + 1, Begin, []) == Closed(f + 9, [f + 3, f + 5])
  {
    var s, both, r := Mode(1, Some('\''), false), [f + 3, f + 5], Closed(f + 9, [f + 3, f + 5]);
    assert ScanCall(alnum, t, f + 8, Begin, both) == r;
    assert ScanCall(alnum, t, f + 7, s, both) == r;
    assert ScanCall(alnum, t, f + 6, s, both) == r;
    assert [f + 3] + [f + 5] == both && [] + [f + 3] == [f + 3];
    assert ScanCall(alnum, t, f + 5, s, [f + 3]) == r;
    assert ScanCall(alnum, t, f + 4, s, [f + 3]) == r;
    assert ScanCall(alnum, t, f + 3, s, []) == r;
    assert ScanCall(alnum, t, f + 2, s, []) == r;
  }

  lemma ExtractOne(alnum: set<char>, text: string, i: nat, f: nat, end: nat, escapes: seq<nat>, rest: seq<Match>)
    requires KeepAt(text, i) && Find(text, '(', i) == f < |text|
    requires ScanCall(alnum, text, f + 1, Begin, []) == Closed(end, escapes) && Extract(alnum, text, end) == Some(rest)
    ensures Extract(alnum, text, i) == Some([Match(i, end, escapes)] + rest)
  {
    ScanStays(alnum, text, f + 1, Begin, []);
    hide ScanCall, Find;
  }

  lemma OneQuoteIs()
    ensures |OneQuote| == 14 && KeepAt(OneQuote, 1) && !KeepAt(OneQuote, 0) && Find(OneQuote, '(', 1) == 7
  {
    FindIs(OneQuote, '(', 1, 7);
    assert OneQuote[1..1 + 5] == "keep.";
    assert OneQuote[0..0 + 5][0] == ' ';
  }

  /** With a blank in front of the call, the backslash goes behind the quote, and the text
      that comes out holds no call at all. */
  lemma BlankBreaksRepair(alnum: set<char>)
    requires 'b' in alnum && ')' !in alnum
    ensures Extract(alnum, OneQuote, 0) == Some([Match(1, 14, [10])])
    ensures InsertAll(OneQuote[1..14], [10], 0) == "keep.f('a'\\b')"
    ensures Repaired(OneQuote, Match(1, 14, [10])) == "keep.f('a\\'b')"
    ensures '\\' !in alnum ==> Extract(alnum, "keep.f('a'\\b')", 0) == Some([])
  {
    OneQuoteIs();
    ScanOneQuote(alnum, OneQuote, 7);
    if '\\' !in alnum {
      BrokenUnclosed(alnum);
    }
    hide ScanCall, Find, KeepAt;
    assert Extract(alnum, OneQuote, 14) == Some([]);
    ExtractOne(alnum, OneQuote, 1, 7, 14, [10], []);
    assert [Match(1, 14, [10])] + [] == [Match(1, 14, [10])];
    OneQuoteInserted();
  }

  /** The string ends at its second quote, and another one starts at the third. */
  lemma BrokenUnclosed(alnum: set<char>)
    requires '\\' !in alnum
    ensures Extract(alnum, "keep.f('a'\\b')", 0) == Some([])
  {
    var t := "keep.f('a'\\b')";
    assert t[0..0 + 5] == "keep.";
    FindIs(t, '(', 0, 6);
    ScanBroken(alnum, t, 6);
    hide ScanCall, Find, KeepAt;
    assert KeepAt(t, 0) by { KeepHere(t, 0); }
  }

  lemma KeepHere(t: string, i: nat)
    requires i + 5 <= |t| && t[i..i + 5] == "keep."
    ensures KeepAt(t, i)
  {}

  lemma ScanBroken(alnum: set<char>, t: string, f: nat)
    requires |t| == f + 8 && '\\' !in alnum
    requires t[f + 1] == '\'' && t[f + 2] == 'a' && t[f + 3] == '\'' && t[f + 4] == '\\' && t[f + 5] == 'b'
    requires t[f + 6] == '\'' && t[f + 7] == ')'
    ensures ScanCall(alnum, t, f + 1, Begin, []) == Unclosed
  {
    var s := Mode(1, Some('\''), false);
    assert ScanCall(alnum, t, f + 7, s, []) == Unclosed;
    assert ScanCall(alnum, t, f + 6, Begin, []) == Unclosed;
    assert ScanCall(alnum, t, f + 5, Begin, []) == Unclosed;
    assert ScanCall(alnum, t, f + 4, Begin, []) == Unclosed;
    assert ScanCall(alnum, t, f + 3, s, []) == Unclosed;
    assert ScanCall(alnum, t, f + 2, s, []) == Unclosed;
  }

  lemma OneQuoteInserted()
    ensures |OneQuote| == 14 && InsertAll(OneQuote[1..14], [10], 0) == "keep.f('a'\\b')"
    ensures Repaired(OneQuote, Match(1, 14, [10])) == "keep.f('a\\'b')"
  {
    var token := OneQuote[1..14];
    assert token == "keep.f('a'b')";
    assert Insert(token, 10) == "keep.f('a'\\b')" && Insert(token, 9) == "keep.f('a\\'b')";
    InsertOnce(token, 10);
    InsertOnce(token, 9);
    assert Relative([10], 1) == [9];
  }

  lemma InsertOnce(token: string, k: nat)
    ensures InsertAll(token, [k], 0) == Insert(token, k)
  {
    assert [k][1..] == [];
  }

  lemma TwoQuotesIs()
    ensures |TwoQuotes| == 23 && KeepAt(TwoQuotes, 0) && KeepAt(TwoQuotes, 15)
    ensures Find(TwoQuotes, '(', 0) == 6 && Find(TwoQuotes, '(', 15) == 21 && TwoQuotes[22] == ')'
  {
    FindIs(TwoQuotes, '(', 0, 6);
    FindIs(TwoQuotes, '(', 15, 21);
    assert TwoQuotes[0..0 + 5] == "keep." && TwoQuotes[15..15 + 5] == "keep.";
  }

  /** Of two quotes to escape, the second one's backslash goes in front of the b. */
  lemma SecondQuoteBreaksRepair(alnum: set<char>)
    requires 'b' in alnum && 'c' in alnum && ')' !in alnum
    ensures Extract(alnum, TwoQuotes, 0) == Some([Match(0, 15, [9, 11]), Match(15, 23, [])])
    ensures InsertUnmoved(TwoQuotes[0..15], [9, 11]) == "keep.f('a\\'\\b'c')"
    ensures Repaired(TwoQuotes, Match(0, 15, [9, 11])) == "keep.f('a\\'b\\'c')"
  {
    TwoQuotesIs();
    ScanTwoQuotes(alnum, TwoQuotes, 6);
    assert ScanCall(alnum, TwoQuotes, 22, Begin, []) == Closed(23, []) by {
      assert ScanCall(alnum, TwoQuotes, 23, Mode(0, None, false), []) == Closed(23, []);
    }
    hide ScanCall, Find, KeepAt;
    assert Extract(alnum, TwoQuotes, 23) == Some([]);
    ExtractOne(alnum, TwoQuotes, 15, 21, 23, [], []);
    assert [Match(15, 23, [])] + [] == [Match(15, 23, [])];
    ExtractOne(alnum, TwoQuotes, 0, 6, 15, [9, 11], [Match(15, 23, [])]);
    assert [Match(0, 15, [9, 11])] + [Match(15, 23, [])] == [Match(0, 15, [9, 11]), Match(15, 23, [])];
    TwoQuotesInserted();
  }

  lemma TwoQuotesInserted()
    ensures |TwoQuotes| == 23 && InsertUnmoved(TwoQuotes[0..15], [9, 11]) == "keep.f('a\\'\\b'c')"
    ensures Repaired(TwoQuotes, Match(0, 15, [9, 11])) == "keep.f('a\\'b\\'c')"
  {
    var token := TwoQuotes[0..15];
    assert token == "keep.f('a'b'c')";
    var once := Insert(token, 9);
    assert once == "keep.f('a\\'b'c')";
    assert Insert(once, 11) == "keep.f('a\\'\\b'c')" && Insert(once, 12) == "keep.f('a\\'b\\'c')";
    assert [9, 11][1..] == [11] && [11][1..] == [];
    assert Relative([9, 11], 0) == [9, 11];
    InsertTwo(token, 9, 11);
  }

  lemma InsertTwo(token: string, j: nat, k: nat)
    ensures InsertAll(token, [j, k], 0) == Insert(Insert(token, j), k + 1)
    ensures InsertUnmoved(token, [j, k]) == Insert(Insert(token, j), k)
  {
    assert [j, k][1..] == [k] && [k][1..] == [];
    Unroll(token, [j, k], 0);
    Unroll(Insert(token, j), [k], 0);
    Unroll(Insert(token, j), [k], 1);
  }

  // ---- A text that is repaired wrongly and scans all the same ----

  const BlankTwoQuotes: string := " keep.f('a'b'c')"

  const Misplaced: string := "keep.f('a'\\b'\\c')"

  lemma ScanMisplaced(alnum: set<char>, t: string, f: nat)
    requires |t| == f + 11 && '\\' !in alnum && ')' !in alnum
    requires t[f + 1] == '\'' && t[f + 2] == 'a' && t[f + 3] == '\'' && t[f + 4] == '\\' && t[f + 5] == 'b'
    requires t[f + 6] == '\'' && t[f + 7] == '\\' && t[f + 8] == 'c' && t[f + 9] == '\'' && t[f + 10] == ')'
    ensures ScanCall(alnum, t, f + 1, Begin, []) == Closed(f + 11, [])
  {
    var s, r := Mode(1, Some('\''), false), Closed(f + 11, []);
    assert ScanCall(alnum, t, f + 10, Begin, []) == r;
    assert ScanCall(alnum, t, f + 9, s, []) == r;
    assert ScanCall(alnum, t, f + 8, s.(escape := true), []) == r;
    assert ScanCall(alnum, t, f + 7, s, []) == r;
    assert ScanCall(alnum, t, f + 6, Begin, []) == r;
    assert ScanCall(alnum, t, f + 5, Begin, []) == r;
    assert ScanCall(alnum, t, f + 4, Begin, []) == r;
    assert ScanCall(alnum, t, f + 3, s, []) == r;
    assert ScanCall(alnum, t, f + 2, s, []) == r;
  }

  lemma MisplacedIs()
    ensures |BlankTwoQuotes| == 16 && KeepAt(BlankTwoQuotes, 1) && !KeepAt(BlankTwoQuotes, 0)
    ensures Find(BlankTwoQuotes, '(', 1) == 7
    ensures |Misplaced| == 17 && KeepAt(Misplaced, 0) && Find(Misplaced, '(', 0) == 6
  {
    FindIs(BlankTwoQuotes, '(', 1, 7);
    FindIs(Misplaced, '(', 0, 6);
    assert BlankTwoQuotes[1..1 + 5] == "keep." && BlankTwoQuotes[0..0 + 5][0] == ' ' && Misplaced[0..0 + 5] == "keep.";
  }

  lemma MisplacedInserted()
    ensures |BlankTwoQuotes| == 16 && InsertAll(BlankTwoQuotes[1..16], [10, 12], 0) == Misplaced
    ensures Misplaced != Repaired(BlankTwoQuotes, Match(1, 16, [10, 12]))
  {
    var token := BlankTwoQuotes[1..16];
    assert token == "keep.f('a'b'c')";
    var once := "keep.f('a'\\b'c')";
    assert Insert(token, 10) == once && Insert(once, 13) == Misplaced;
    InsertTwo(token, 10, 12);
    InsertTwo(token, 9, 11);
    assert [10, 12][1..] == [12] && Relative([12], 1) == [11] && Relative([10, 12], 1) == [9, 11];
    var right := Insert(Insert(token, 9), 12);
    assert right[9] == '\\' && Misplaced[9] == '\'';
  }

  /** The backslashes stand in the wrong places, and what comes out still scans as one call
      with nothing to escape: the string has become two. */
  lemma MisplacedStillScans(alnum: set<char>)
    requires 'b' in alnum && 'c' in alnum && ')' !in alnum && '\\' !in alnum
    ensures Extract(alnum, BlankTwoQuotes, 0) == Some([Match(1, 16, [10, 12])])
    ensures InsertAll(BlankTwoQuotes[1..16], [10, 12], 0) == Misplaced != Repaired(BlankTwoQuotes, Match(1, 16, [10, 12]))
    ensures Extract(alnum, Misplaced, 0) == Some([Match(0, |Misplaced|, [])])
  {
    FindsBlankTwo(alnum);
    FindsMisplaced(alnum);
    MisplacedInserted();
    hide *;
  }

  lemma FindsBlankTwo(alnum: set<char>)
    requires 'b' in alnum && 'c' in alnum && ')' !in alnum
    ensures Extract(alnum, BlankTwoQuotes, 0) == Some([Match(1, 16, [10, 12])])
  {
    MisplacedIs();
    ScanTwoQuotes(alnum, BlankTwoQuotes, 7);
    hide ScanCall, Find, KeepAt;
    assert Extract(alnum, BlankTwoQuotes, 16) == Some([]);
    ExtractOne(alnum, BlankTwoQuotes, 1, 7, 16, [10, 12], []);
    assert [Match(1, 16, [10, 12])] + [] == [Match(1, 16, [10, 12])];
  }

  lemma FindsMisplaced(alnum: set<char>)
    requires ')' !in alnum && '\\' !in alnum
    ensures Extract(alnum, Misplaced, 0) == Some([Match(0, |Misplaced|, [])])
  {
    MisplacedIs();
    ScanMisplaced(alnum, Misplaced, 6);
    hide ScanCall, Find, KeepAt;
    assert Extract(alnum, Misplaced, 17) == Some([]);
    ExtractOne(alnum, Misplaced, 0, 6, 17, [], []);
    assert [Match(0, 17, [])] + [] == [Match(0, 17, [])];
  }
}

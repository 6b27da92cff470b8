// Writing parameter values into an SQL template, one parameter after the other
// (keep/searchengine/searchengine.py, _create_raw_sql).
module SqlPlaceholders {
  /** A parameter's value: a string is quoted, anything else is printed as it is. */
  datatype Value = Text(text: string) | Other(printed: string)

  function Printed(v: Value): string {
    match v
    case Text(t) => "'" + t + "'"
    case Other(p) => p
  }

  /** The parameters in the order they were inserted. */
  datatype Param = Param(key: string, value: Value)

  function Placeholder(p: Param): (s: string)
    ensures s != ""
  {
    ":" + p.key
  }

  /** `str.replace`: from left to right, never looking at text it has just put in. */
  function Replace(text: string, what: string, with: string): string
    requires what != ""
    decreases |text|
  {
    if what <= text then with + Replace(text[|what|..], what, with)
    else if text == "" then ""
    else [text[0]] + Replace(text[1..], what, with)
  }

  /** The parameters one by one, the last inserted first. */
  function Sequential(text: string, params: seq<Param>): string
    decreases params
  {
    if params == [] then text
    else
      var n := |params| - 1;
      Sequential(Replace(text, Placeholder(params[n]), Printed(params[n].value)), params[..n])
  }

  method CreateRawSql(template: string, params: seq<Param>) returns (sql: string)
    ensures sql == Sequential(template, params)
    ensures Plain(params) && Ordered(params) && Separate(template, params) ==> sql == Substitute(template, params)
  {
    var items := Reversed(params);
    sql := template;
    assert params[..|params|] == params;
    for i := 0 to |items|
      invariant Sequential(template, params) == Sequential(sql, params[..|params| - i])
    {
      var n := |params| - 1 - i;
      assert items[i] == params[n] == params[..n + 1][n] && params[..n + 1][..n] == params[..n];
      sql := Replace(sql, Placeholder(items[i]), Printed(items[i].value));
    }
    if Plain(params) && Ordered(params) && Separate(template, params) {
      SequentialIsSimultaneous(template, params);
    }
  }

  function Reversed(params: seq<Param>): (r: seq<Param>)
    ensures |r| == |params| && forall k :: 0 <= k < |r| ==> r[k] == params[|params| - 1 - k]
  {
    seq(|params|, k requires 0 <= k < |params| => params[|params| - 1 - k])
  }

  // ---- What it is meant to compute ----

  /** The parameter with the longest key that the text starts with, or -1. */
  function Longest(text: string, params: seq<Param>): (i: int)
    ensures -1 <= i < |params| && (i >= 0 ==> params[i].key <= text)
    ensures forall k :: 0 <= k < |params| && params[k].key <= text ==> i >= 0 && |params[k].key| <= |params[i].key|
  {
    if params == [] then -1
    else
      var n := |params| - 1;
      var i := Longest(text, params[..n]);
      if params[n].key <= text && (i < 0 || |params[i].key| < |params[n].key|) then n else i
  }

  /** All placeholders at once: at each colon the longest key counts, and what is put in
      is not looked at again. */
  function Substitute(text: string, params: seq<Param>): string
    decreases |text|
  {
    if text == "" then ""
    else if text[0] == ':' && Longest(text[1..], params) >= 0 then
      var p := params[Longest(text[1..], params)];
      Printed(p.value) + Substitute(text[1..][|p.key|..], params)
    else [text[0]] + Substitute(text[1..], params)
  }

  // ---- When the two agree ----

  predicate NoColon(s: string) {
    ':' !in s
  }

  /** Neither keys nor printed values have colons. */
  predicate Plain(params: seq<Param>) {
    forall k :: 0 <= k < |params| ==> NoColon(params[k].key) && NoColon(Printed(params[k].value))
  }

  /** No key is a prefix of an earlier one. */
  predicate Ordered(params: seq<Param>) {
    forall i, j :: 0 <= i < j < |params| ==> !(params[j].key <= params[i].key)
  }

  /** The text before the first colon, and the pieces that follow each colon. */
  datatype Pieces = Pieces(head: string, tails: seq<string>)

  function Cut(text: string): (p: Pieces)
    ensures NoColon(p.head) && forall k :: 0 <= k < |p.tails| ==> NoColon(p.tails[k])
  {
    if text == "" then Pieces("", [])
    else
      var p := Cut(text[1..]);
      if text[0] == ':' then Pieces("", [p.head] + p.tails) else Pieces([text[0]] + p.head, p.tails)
  }

  /** The last parameter whose key the piece starts with, or -1. */
  function Last(piece: string, params: seq<Param>): (i: int)
    ensures -1 <= i < |params| && (i >= 0 ==> params[i].key <= piece)
    ensures forall k :: i < k < |params| ==> !(params[k].key <= piece)
  {
    if params == [] then -1
    else
      var n := |params| - 1;
      if params[n].key <= piece then n else Last(piece, params[..n])
  }

  /** What is written after the piece can complete it to the key; a string value starts
      with a quote. */
  predicate Grows(piece: string, key: string, v: Value) {
    piece < key && (v.Text? ==> key[|piece|] == '\'')
  }

  /** What is written for the next piece cannot make this one grow into a placeholder that
      is written later, down to the one at `from`. */
  predicate Apart(piece: string, next: string, params: seq<Param>, from: nat) {
    forall i :: from <= i < Last(next, params) ==> !Grows(piece, params[i].key, params[Last(next, params)].value)
  }

  predicate AllApart(tails: seq<string>, params: seq<Param>, from: nat) {
    forall k :: 0 <= k < |tails| - 1 ==> Apart(tails[k], tails[k + 1], params, from)
  }

  /** No piece of the template right before a placeholder can grow into a placeholder that
      is written later. This looks at the template, the keys, and which values are strings,
      not at what the values are. */
  predicate Separate(template: string, params: seq<Param>) {
    AllApart(Cut(template).tails, params, 0)
  }

  // ---- Why they agree ----

  /** A piece once the parameters from `n` on have been written. */
  function Shown(piece: string, params: seq<Param>, n: nat): string {
    var i := Last(piece, params);
    if i >= n then Printed(params[i].value) + piece[|params[i].key|..] else ":" + piece
  }

  function AllShown(tails: seq<string>, params: seq<Param>, n: nat): string {
    if tails == [] then "" else Shown(tails[0], params, n) + AllShown(tails[1..], params, n)
  }

  lemma {:induction false} CutShown(text: string, params: seq<Param>)
    ensures text == Cut(text).head + AllShown(Cut(text).tails, params, |params|)
  {
    if text == "" {
    } else {
      CutShown(text[1..], params);
      var p := Cut(text[1..]);
      if text[0] == ':' {
        AllShownOpen(p.head, p.tails, params);
        ColonFirst(text, p.head, AllShown(p.tails, params, |params|));
      } else {
        Regroup(text, p.head, AllShown(p.tails, params, |params|));
      }
    }
  }

  lemma AllShownOpen(piece: string, tails: seq<string>, params: seq<Param>)
    ensures AllShown([piece] + tails, params, |params|) == ":" + piece + AllShown(tails, params, |params|)
  {
    assert ([piece] + tails)[1..] == tails;
  }

  lemma ColonFirst(text: string, a: string, b: string)
    requires text != "" && text[0] == ':' && text[1..] == a + b
    ensures text == "" + (":" + a + b)
  {
    assert text == [text[0]] + text[1..];
  }

  lemma Regroup(text: string, a: string, b: string)
    requires text != "" && text[1..] == a + b
    ensures text == [text[0]] + a + b
  {
    assert text == [text[0]] + text[1..];
  }

  /** Text without colons is passed over. */
  lemma {:induction false} ReplaceSkips(s: string, rest: string, key: string, with: string)
    requires NoColon(s)
    ensures Replace(s + rest, ":" + key, with) == s + Replace(rest, ":" + key, with)
  {
    if s == "" {
      assert s + rest == rest;
    } else {
      hide Replace;
      assert (s + rest)[0] == s[0] && (s + rest)[1..] == s[1..] + rest;
      ReplacePasses(s + rest, key, with);
      ReplaceSkips(s[1..], rest, key, with);
      FirstBack(s, Replace(rest, ":" + key, with));
    }
  }

  lemma ReplacePasses(text: string, key: string, with: string)
    requires text != "" && text[0] != ':'
    ensures Replace(text, ":" + key, with) == [text[0]] + Replace(text[1..], ":" + key, with)
  {
    assert (":" + key)[0] == ':';
  }

  lemma FirstBack(s: string, rest: string)
    requires s != ""
    ensures [s[0]] + (s[1..] + rest) == s + rest
  {}

  lemma {:induction false} SubstituteSkips(s: string, rest: string, params: seq<Param>)
    requires NoColon(s)
    ensures Substitute(s + rest, params) == s + Substitute(rest, params)
  {
    hide Longest, Printed;
    if s == "" {
      assert s + rest == rest;
    } else {
      SubstituteSkips(s[1..], rest, params);
      assert (s + rest)[0] == s[0] && (s + rest)[1..] == s[1..] + rest;
    }
  }

  predicate NoColons(tails: seq<string>) {
    forall k :: 0 <= k < |tails| ==> NoColon(tails[k])
  }

  /** What follows a piece starts with a colon unless the next piece has been replaced. */
  lemma NotGrown(tails: seq<string>, params: seq<Param>, n: nat)
    requires tails != [] && n < |params| && Plain(params) && AllApart(tails, params, n) && Last(tails[0], params) < n
    ensures !(params[n].key <= tails[0] + AllShown(tails[1..], params, n + 1))
  {
    var rest := AllShown(tails[1..], params, n + 1);
    if |tails| > 1 {
      assert tails[1..][0] == tails[1];
      assert Apart(tails[0], tails[0 + 1], params, n);
      ShownFirst(tails[1], params, n + 1, AllShown(tails[1..][1..], params, n + 1));
    }
    NotPrefix(params[n].key, tails[0], rest);
  }

  /** A piece that is not replaced starts with a colon, and a string with a quote. */
  lemma ShownFirst(piece: string, params: seq<Param>, n: nat, rest: string)
    ensures var i, text := Last(piece, params), Shown(piece, params, n) + rest;
            if i < n then text != "" && text[0] == ':'
            else params[i].value.Text? ==> text != "" && text[0] == '\''
  {}

  lemma NotPrefix(key: string, piece: string, rest: string)
    requires NoColon(key) && !(key <= piece)
    requires rest == "" || rest[0] == ':' || !(piece < key) || rest[0] != key[|piece|]
    ensures !(key <= piece + rest)
  {
    if piece < key && rest != "" {
      assert key[|piece|] != ':' && (piece + rest)[|piece|] == rest[0];
    }
  }

  /** Writing parameter `n` changes exactly the pieces that start with its key. */
  lemma {:induction false} ShownStep(tails: seq<string>, params: seq<Param>, n: nat)
    requires n < |params| && Plain(params) && AllApart(tails, params, n) && NoColons(tails)
    ensures Replace(AllShown(tails, params, n + 1), Placeholder(params[n]), Printed(params[n].value))
         == AllShown(tails, params, n)
  {
    if tails == [] {
    } else {
      var piece, rest := tails[0], AllShown(tails[1..], params, n + 1);
      var key, with := params[n].key, Printed(params[n].value);
      ShownStep(tails[1..], params, n);
      var i := Last(piece, params);
      if i > n {
        ReplaceSkips(Shown(piece, params, n), rest, key, with);
      } else if i == n {
        ReplaceHit(piece, rest, key, with);
      } else {
        NotGrown(tails, params, n);
        ReplaceMiss(piece, rest, key, with);
      }
    }
  }

  lemma ReplaceHit(piece: string, rest: string, key: string, with: string)
    requires key <= piece && NoColon(piece)
    ensures Replace(":" + piece + rest, ":" + key, with) == with + piece[|key|..] + Replace(rest, ":" + key, with)
  {
    var text := ":" + piece + rest;
    assert ":" + key <= text;
    assert text[|":" + key|..] == piece[|key|..] + rest;
    ReplaceSkips(piece[|key|..], rest, key, with);
  }

  lemma ReplaceMiss(piece: string, rest: string, key: string, with: string)
    requires !(key <= piece + rest) && NoColon(piece)
    ensures Replace(":" + piece + rest, ":" + key, with) == ":" + piece + Replace(rest, ":" + key, with)
  {
    var text := ":" + piece + rest;
    assert text[1..] == piece + rest;
    ColonPrefix(key, text);
    ReplaceSkips(piece, rest, key, with);
  }

  lemma ColonPrefix(key: string, text: string)
    requires text != "" && text[0] == ':'
    ensures ":" + key <= text <==> key <= text[1..]
  {
    assert text == ":" + text[1..];
    assert key <= text[1..] ==> text[1..] == key + text[1..][|key|..];
    assert ":" + key <= text ==> text[1..][..|key|] == key;
  }

  lemma {:induction false} SequentialShows(head: string, tails: seq<string>, params: seq<Param>, n: nat, m: nat)
    requires m <= n <= |params| && Plain(params) && AllApart(tails, params, m) && NoColons(tails) && NoColon(head)
    ensures Sequential(head + AllShown(tails, params, n), params[..n])
         == Sequential(head + AllShown(tails, params, m), params[..m])
  {
    if n > m {
      SequentialShows(head, tails, params, n - 1, m);
      ShownStep(tails, params, n - 1);
      ReplaceSkips(head, AllShown(tails, params, n), params[n - 1].key, Printed(params[n - 1].value));
      assert params[..n][..n - 1] == params[..n - 1];
    }
  }

  lemma Comparable(a: string, b: string, s: string)
    requires a <= s && b <= s && |a| <= |b|
    ensures a <= b
  {}

  lemma LongestIsLast(piece: string, rest: string, params: seq<Param>)
    requires Plain(params) && Ordered(params) && (rest == "" || rest[0] == ':')
    ensures Longest(piece + rest, params) == Last(piece, params)
  {
    var l, i := Longest(piece + rest, params), Last(piece, params);
    forall k | 0 <= k < |params| && params[k].key <= piece + rest ensures params[k].key <= piece {
      if !(params[k].key <= piece) {
        NotPrefix(params[k].key, piece, rest);
      }
    }
    if i >= 0 {
      assert params[i].key <= piece + rest;
      Comparable(params[i].key, params[l].key, piece);
    }
  }

  lemma {:induction false} SubstituteShows(tails: seq<string>, params: seq<Param>)
    requires Plain(params) && Ordered(params) && NoColons(tails)
    ensures Substitute(AllShown(tails, params, |params|), params) == AllShown(tails, params, 0)
  {
    if tails == [] {
    } else {
      var piece, rest := tails[0], AllShown(tails[1..], params, |params|);
      LongestIsLast(piece, rest, params);
      SubstituteShows(tails[1..], params);
      if Last(piece, params) >= 0 {
        SubstituteHit(piece, rest, params, Last(piece, params));
      } else {
        SubstituteMiss(piece, rest, params);
      }
    }
  }

  lemma SubstituteHit(piece: string, rest: string, params: seq<Param>, i: nat)
    requires i < |params| && Longest(piece + rest, params) == i && params[i].key <= piece && NoColon(piece)
    ensures Substitute(":" + piece + rest, params)
         == Printed(params[i].value) + piece[|params[i].key|..] + Substitute(rest, params)
  {
    var key := params[i].key;
    SubstituteAtColon(piece + rest, params);
    assert ":" + piece + rest == ":" + (piece + rest);
    assert (piece + rest)[|key|..] == piece[|key|..] + rest;
    SubstituteSkips(piece[|key|..], rest, params);
  }

  lemma SubstituteMiss(piece: string, rest: string, params: seq<Param>)
    requires Longest(piece + rest, params) < 0 && NoColon(piece)
    ensures Substitute(":" + piece + rest, params) == ":" + piece + Substitute(rest, params)
  {
    SubstituteAtColon(piece + rest, params);
    assert ":" + piece + rest == ":" + (piece + rest);
    SubstituteSkips(piece, rest, params);
  }

  lemma SubstituteAtColon(text: string, params: seq<Param>)
    ensures Substitute(":" + text, params)
         == var i := Longest(text, params);
            if i >= 0 then Printed(params[i].value) + Substitute(text[|params[i].key|..], params)
            else ":" + Substitute(text, params)
  {
    assert (":" + text)[1..] == text;
  }

  /** One after the other is all at once, for every template and any number of parameters. */
  lemma SequentialIsSimultaneous(template: string, params: seq<Param>)
    requires Plain(params) && Ordered(params) && Separate(template, params)
    ensures Sequential(template, params) == Substitute(template, params)
  {
    var p := Cut(template);
    CutShown(template, params);
    SequentialShows(p.head, p.tails, params, |params|, 0);
    assert params[..|params|] == params && params[..0] == [];
    SubstituteIs(template, params);
  }

  // ---- Why pieces must not grow ----

  predicate SameKeys(a: seq<Param>, b: seq<Param>) {
    |a| == |b| && forall k :: 0 <= k < |a| ==> a[k].key == b[k].key
  }

  /** The same keys, and strings in the same places. */
  predicate SameShape(a: seq<Param>, b: seq<Param>) {
    SameKeys(a, b) && forall k :: 0 <= k < |a| ==> a[k].value.Text? == b[k].value.Text?
  }

  /** For given keys and given which of the values are strings, one after the other is all
      at once for all such values if and only if no piece of the template can grow into a
      placeholder. */
  lemma AgreesIff(template: string, params: seq<Param>)
    requires Plain(params) && Ordered(params)
    ensures Separate(template, params)
       <==> forall other | SameShape(other, params) && Plain(other) :: Sequential(template, other) == Substitute(template, other)
  {
    if Separate(template, params) {
      forall other | SameShape(other, params) && Plain(other) ensures Sequential(template, other) == Substitute(template, other) {
        ApartByShape(Cut(template).tails, params, other, 0);
        SequentialIsSimultaneous(template, other);
      }
    } else {
      var other := GrowthBreaks(template, params);
    }
  }

  /** The keys, with values that are no strings. */
  function Bare(params: seq<Param>): (r: seq<Param>)
    ensures SameKeys(r, params) && forall k :: 0 <= k < |r| ==> r[k].value == Other("")
  {
    seq(|params|, k requires 0 <= k < |params| => Param(params[k].key, Other("")))
  }

  /** For given keys, this holds for values of all kinds if and only if it does for values
      that are no strings. */
  lemma AgreesAlwaysIff(template: string, params: seq<Param>)
    requires Plain(params) && Ordered(params)
    ensures Separate(template, Bare(params))
       <==> forall other | SameKeys(other, params) && Plain(other) :: Sequential(template, other) == Substitute(template, other)
  {
    var bare := Bare(params);
    AgreesIff(template, bare);
    if Separate(template, bare) {
      forall other | SameKeys(other, params) && Plain(other) ensures Sequential(template, other) == Substitute(template, other) {
        BareApart(Cut(template).tails, bare, other);
        SequentialIsSimultaneous(template, other);
      }
    } else {
      hide Sequential, Substitute, Separate, Plain;
      var other :| SameShape(other, bare) && Plain(other) && Sequential(template, other) != Substitute(template, other);
      assert SameKeys(other, params);
    }
  }

  lemma BareApart(tails: seq<string>, bare: seq<Param>, params: seq<Param>)
    requires SameKeys(bare, params) && AllApart(tails, bare, 0)
    requires forall k :: 0 <= k < |bare| ==> bare[k].value.Other?
    ensures AllApart(tails, params, 0)
  {
    forall k | 0 <= k < |tails| - 1 ensures Apart(tails[k], tails[k + 1], params, 0) {
      LastByKeys(tails[k + 1], bare, params);
      assert Apart(tails[k], tails[k + 1], bare, 0);
    }
  }

  /** Keys without quotes never grow before a string. */
  lemma StringsAgree(template: string, params: seq<Param>)
    requires Plain(params) && Ordered(params)
    requires forall k :: 0 <= k < |params| ==> params[k].value.Text? && '\'' !in params[k].key
    ensures Sequential(template, params) == Substitute(template, params)
  {
    SequentialIsSimultaneous(template, params);
  }

  // ---- A condition that is not enough ----

  /** Each placeholder that counts is followed by the end of the template, a colon, or
      another character that occurs in no key. */
  predicate Followed(template: string, params: seq<Param>) {
    var tails := Cut(template).tails;
    forall k :: 0 <= k < |tails| ==>
      var i := Last(tails[k], params);
      i >= 0 && |params[i].key| < |tails[k]| ==>
        forall j :: 0 <= j < |params| ==> tails[k][|params[i].key|] !in params[j].key
  }

  const Three: seq<Param> := [Param("a", Other("x")), Param("a1", Other("y")), Param("b", Other("1"))]

  lemma CutTwo()
    ensures Cut(":a:b") == Pieces("", ["a", "b"])
  {
    assert ":a:b"[1..] == "a:b" && "a:b"[1..] == ":b" && ":b"[1..] == "b" && "b"[1..] == "";
    assert Cut("b") == Pieces("b", []);
    assert Cut(":b") == Pieces("", ["b"]);
    assert Cut("a:b") == Pieces("a", ["b"]);
  }

  lemma TwoSequential()
    ensures Sequential(":a:b", Three) == "y"
  {
    assert ":a:b"[1..] == "a:b" && "a:b"[1..] == ":b" && ":b"[2..] == "" && ":a1"[3..] == "" && "y"[1..] == "";
    assert Replace(":b", ":b", "1") == "1";
    assert Replace("a:b", ":b", "1") == "a1";
    assert Replace(":a:b", ":b", "1") == ":a1";
    assert Replace(":a1", ":a1", "y") == "y";
    assert Replace("y", ":a", "x") == "y";
    var two, one := [Three[0], Three[1]], [Three[0]];
    assert Three[..2] == two && two[..1] == one && one[..0] == [];
    assert Sequential("y", one) == "y";
    assert Sequential(":a1", two) == "y";
  }

  lemma Differ(a: string, b: string, k: nat)
    requires k < |a| && (k < |b| ==> a[k] != b[k])
    ensures !(a <= b)
  {}

  lemma TwoFound()
    ensures Longest("b", Three) == 2 == Last("b", Three) && Longest("a:b", Three) == 0 == Last("a", Three)
  {
    hide Longest, Last;
    Differ("a", "b", 0);
    Differ("b", "a", 0);
    Differ("b", "a:b", 0);
    Differ("a1", "a", 1);
    Differ("a1", "b", 0);
    Differ("a1", "a:b", 1);
    assert "a" <= "a:b" && "a" <= "a" && "b" <= "b";
    assert Three[0].key == "a" && Three[1].key == "a1" && Three[2].key == "b";
  }

  lemma TwoAtOnce()
    ensures Substitute(":a:b", Three) == "x1"
  {
    TwoFound();
    hide Longest;
    assert ":a:b" == ":" + "a:b" && "a:b"[1..] == ":b" && ":b" == ":" + "b" && "b"[1..] == "";
    SubstituteAtColon("b", Three);
    SubstituteAtColon("a:b", Three);
    assert Substitute("", Three) == "";
    hide Substitute;
    assert Substitute(":b", Three) == "1" + "";
    assert Substitute(":a:b", Three) == "x" + "1";
  }

  lemma ThreePlain()
    ensures Plain(Three) && Ordered(Three)
  {
    Differ("a1", "a", 1);
    Differ("b", "a", 0);
    Differ("b", "a1", 0);
  }

  /** Each placeholder is followed by a colon or the end, and still b's value completes :a
      to :a1, which is then replaced. */
  lemma FollowedIsNotEnough()
    ensures Plain(Three) && Ordered(Three) && Followed(":a:b", Three)
    ensures Sequential(":a:b", Three) == "y" && Substitute(":a:b", Three) == "x1"
  {
    ThreePlain();
    CutTwo();
    TwoSequential();
    TwoAtOnce();
    TwoFound();
    hide Sequential, Substitute, Cut, Last, Longest, Plain, Ordered;
  }

  lemma {:induction false} LastByKeys(piece: string, a: seq<Param>, b: seq<Param>)
    requires SameKeys(a, b)
    ensures Last(piece, a) == Last(piece, b)
  {
    if a != [] {
      LastByKeys(piece, a[..|a| - 1], b[..|a| - 1]);
    }
  }

  /** Piece `k` can grow into placeholder `i`. */
  predicate Growing(tails: seq<string>, params: seq<Param>, k: nat, i: nat) {
    k + 1 < |tails| && i < Last(tails[k + 1], params)
    && Grows(tails[k], params[i].key, params[Last(tails[k + 1], params)].value)
  }

  /** The placeholder written first among those that some piece can grow into. */
  lemma {:induction false} FirstGrown(tails: seq<string>, params: seq<Param>, k: nat, i: nat) returns (kk: nat, ii: nat)
    requires Growing(tails, params, k, i)
    ensures Growing(tails, params, kk, ii) && AllApart(tails, params, ii + 1)
    decreases |params| - i
  {
    kk, ii := k, i;
    if !AllApart(tails, params, i + 1) {
      var l: nat :| l < |tails| - 1 && !Apart(tails[l], tails[l + 1], params, i + 1);
      var n: nat :| i + 1 <= n < Last(tails[l + 1], params)
                    && Grows(tails[l], params[n].key, params[Last(tails[l + 1], params)].value);
      kk, ii := FirstGrown(tails, params, l, n);
    }
  }

  /** A value of the same kind that prints with `content` inside its quotes, if it has any. */
  function Like(v: Value, content: string): (r: Value)
    ensures r.Text? == v.Text?
    ensures |content| <= |Printed(r)| <= |content| + 2
    ensures NoColon(content) ==> NoColon(Printed(r))
  {
    if v.Text? then Text(content) else Other(content)
  }

  /** What a value of this kind has to contain, to go on as `rest` does. */
  function Inside(v: Value, rest: string): string {
    if v.Text? && rest != "" then rest[1..] else rest
  }

  lemma InsideStarts(v: Value, rest: string)
    requires v.Text? ==> rest != "" && rest[0] == '\''
    ensures rest <= Printed(Like(v, Inside(v, rest)))
  {}

  /** A value that completes piece `k` to the key of parameter `i`, a long value for `i`
      itself, and nothing for the others. */
  function Completing(params: seq<Param>, i: nat, j: nat, rest: string, long: string): (r: seq<Param>)
    requires i < j < |params|
    ensures SameShape(r, params)
    ensures |Printed(r[i].value)| >= |long| && r[j].value == Like(params[j].value, Inside(params[j].value, rest))
    ensures forall k :: 0 <= k < |r| && k != i && k != j ==> |Printed(r[k].value)| <= 2
    ensures NoColon(rest) && NoColon(long) && (forall k :: 0 <= k < |r| ==> NoColon(params[k].key)) ==> Plain(r)
  {
    seq(|params|, k requires 0 <= k < |params| =>
      Param(params[k].key, Like(params[k].value,
                                if k == i then long else if k == j then Inside(params[j].value, rest) else "")))
  }

  function Zeros(n: nat): (s: string)
    ensures |s| == n && NoColon(s)
  {
    seq(n, _ => '0')
  }

  predicate Within(params: seq<Param>, max: nat) {
    forall k :: 0 <= k < |params| ==> |params[k].key| <= max
  }

  lemma SomeBound(params: seq<Param>) returns (max: nat)
    ensures Within(params, max)
  {
    max := 0;
    for k := 0 to |params|
      invariant Within(params[..k], max)
    {
      assert params[..k + 1] == params[..k] + [params[k]];
      max := if |params[k].key| > max then |params[k].key| else max;
    }
    assert params[..|params|] == params;
  }

  /** The length of a text, less `max + 1` for every colon: writing a parameter whose key
      is not longer than `max` never makes it smaller. */
  function Weight(text: string, max: nat): (w: int)
    ensures w <= |text|
  {
    if text == "" then 0 else (if text[0] == ':' then 0 - max else 1) + Weight(text[1..], max)
  }

  lemma {:induction false} WeightPlain(s: string, rest: string, max: nat)
    requires NoColon(s)
    ensures Weight(s + rest, max) == |s| + Weight(rest, max)
  {
    if s == "" {
      assert s + rest == rest;
    } else {
      assert (s + rest)[0] == s[0] && (s + rest)[1..] == s[1..] + rest;
      WeightPlain(s[1..], rest, max);
    }
  }

  lemma WeightOpen(piece: string, rest: string, max: nat)
    requires NoColon(piece)
    ensures Weight(":" + piece + rest, max) == |piece| - max + Weight(rest, max)
  {
    assert (":" + piece + rest)[1..] == piece + rest;
    WeightPlain(piece, rest, max);
  }

  lemma {:induction false} ReplaceWeighs(text: string, key: string, with: string, max: nat)
    requires NoColon(key) && NoColon(with) && |key| <= max
    ensures Weight(Replace(text, ":" + key, with), max) >= Weight(text, max)
    decreases |text|
  {
    var what := ":" + key;
    if what <= text {
      var rest := text[|what|..];
      ReplaceWeighs(rest, key, with, max);
      WeightPlain(with, Replace(rest, what, with), max);
      assert text == ":" + key + rest;
      WeightOpen(key, rest, max);
    } else if text != "" {
      ReplaceWeighs(text[1..], key, with, max);
      assert ([text[0]] + Replace(text[1..], what, with))[1..] == Replace(text[1..], what, with);
    }
  }

  lemma {:induction false} SequentialWeighs(text: string, params: seq<Param>, n: nat, max: nat)
    requires n <= |params| && Plain(params) && Within(params, max)
    ensures Weight(Sequential(text, params[..n]), max) >= Weight(text, max)
    decreases n
  {
    if n > 0 {
      var p := params[n - 1];
      assert params[..n][..n - 1] == params[..n - 1];
      ReplaceWeighs(text, p.key, Printed(p.value), max);
      SequentialWeighs(Replace(text, Placeholder(p), Printed(p.value)), params, n - 1, max);
    }
  }

  /** A piece that is still open weighs at least what it is replaced by in the end, and much
      more when parameter `i` is written for it out of turn. */
  lemma GrownPiece(piece: string, rest: string, params: seq<Param>, i: nat, max: nat)
    requires Plain(params) && NoColon(piece) && i < |params| && Within(params, max)
    requires |Printed(params[i].value)| >= 2 * |params[i].key| + 4 && forall m :: 0 <= m < i ==> |Printed(params[m].value)| <= 2
    ensures var key, with := params[i].key, Printed(params[i].value);
            var before, after := Replace(Shown(piece, params, i + 1) + rest, ":" + key, with), Replace(rest, ":" + key, with);
            Weight(before, max) >= Weight(after, max) + |Shown(piece, params, 0)| +
                                   if Last(piece, params) < i && key <= piece + rest then |with| - 2 * |key| - 3 else -(max + 3)
  {
    var key, with := params[i].key, Printed(params[i].value);
    var after := Replace(rest, ":" + key, with);
    if Last(piece, params) > i {
      ReplaceSkips(Shown(piece, params, 0), rest, key, with);
      WeightPlain(Shown(piece, params, 0), after, max);
    } else if Last(piece, params) == i {
      ReplaceHit(piece, rest, key, with);
      WeightPlain(Shown(piece, params, 0), after, max);
    } else if key <= piece + rest {
      GrownHit(piece, rest, key, with, max);
    } else {
      ReplaceMiss(piece, rest, key, with);
      WeightOpen(piece, after, max);
    }
  }

  lemma GrownHit(piece: string, rest: string, key: string, with: string, max: nat)
    requires NoColon(piece) && NoColon(key) && NoColon(with) && !(key <= piece) && key <= piece + rest
    ensures Weight(Replace(":" + piece + rest, ":" + key, with), max)
         == Weight(Replace(rest, ":" + key, with), max) + |with| - (|key| - |piece|)
  {
    var more, tail := key[|piece|..], rest[|key| - |piece|..];
    assert rest == more + tail && piece + more == key;
    ReplaceSkips(more, tail, key, with);
    WeightPlain(more, Replace(tail, ":" + key, with), max);
    assert ":" + piece + rest == ":" + key + tail;
    ReplaceHit(key, tail, key, with);
    assert with + key[|key|..] == with;
    WeightPlain(with, Replace(tail, ":" + key, with), max);
  }

  ghost predicate Completed(tails: seq<string>, params: seq<Param>, k: int, i: nat)
    requires i < |params|
  {
    k >= 0 ==> Growing(tails, params, k, i) && params[i].key <= tails[k] + Printed(params[Last(tails[k + 1], params)].value)
  }

  /** Writing parameter `i` when piece `k` has grown into its placeholder (-1 for none). */
  lemma {:induction false} GrownStep(tails: seq<string>, params: seq<Param>, i: nat, k: int, max: nat)
    requires Plain(params) && Ordered(params) && NoColons(tails) && i < |params| && Within(params, max)
    requires |Printed(params[i].value)| >= 2 * |params[i].key| + 4 && forall m :: 0 <= m < i ==> |Printed(params[m].value)| <= 2
    requires Completed(tails, params, k, i)
    ensures var key, with := params[i].key, Printed(params[i].value);
            Weight(Replace(AllShown(tails, params, i + 1), ":" + key, with), max) + |tails| * (max + 3)
              >= |AllShown(tails, params, 0)| + if k >= 0 then |with| - 2 * |key| - 3 else 0
    decreases tails
  {
    hide *;
    if tails == [] {
      GrownNone(params, i, k, max);
    } else {
      var rest := AllShown(tails[1..], params, i + 1);
      TailFacts(tails, params, i, k);
      GrownPiece(tails[0], rest, params, i, max);
      GrownStep(tails[1..], params, i, if k > 0 then k - 1 else -1, max);
      if k == 0 {
        GrownOpen(tails, params, i);
      }
      OneMorePiece(|tails|, max);
    }
  }

  lemma GrownNone(params: seq<Param>, i: nat, k: int, max: nat)
    requires i < |params| && Completed([], params, k, i)
    ensures k < 0 && Weight(Replace(AllShown([], params, i + 1), ":" + params[i].key, Printed(params[i].value)), max) == 0
    ensures AllShown([], params, 0) == ""
  {}

  lemma TailFacts(tails: seq<string>, params: seq<Param>, i: nat, k: int)
    requires tails != [] && NoColons(tails) && i < |params| && Completed(tails, params, k, i)
    ensures NoColon(tails[0]) && NoColons(tails[1..]) && Completed(tails[1..], params, if k > 0 then k - 1 else -1, i)
    ensures AllShown(tails, params, i + 1) == Shown(tails[0], params, i + 1) + AllShown(tails[1..], params, i + 1)
    ensures AllShown(tails, params, 0) == Shown(tails[0], params, 0) + AllShown(tails[1..], params, 0)
  {
    hide Shown, Last, Printed;
    if k > 0 {
      assert tails[1..][k - 1] == tails[k] && tails[1..][k] == tails[k + 1];
    }
  }

  lemma OneMorePiece(n: nat, max: nat)
    requires n > 0
    ensures n * (max + 3) == (n - 1) * (max + 3) + (max + 3)
  {}

  /** The first piece has grown into placeholder `i`. */
  lemma GrownOpen(tails: seq<string>, params: seq<Param>, i: nat)
    requires Ordered(params) && i < |params| && Completed(tails, params, 0, i)
    ensures Last(tails[0], params) < i && params[i].key <= tails[0] + AllShown(tails[1..], params, i + 1)
  {
    var key, next := params[i].key, tails[1];
    assert tails[1..][0] == next;
    assert key == tails[0] + key[|tails[0]|..];
    forall m | i <= m < |params| ensures !(params[m].key <= tails[0]) {
      if m > i {
        NotPrefixOfPiece(params[m].key, tails[0], key);
      }
    }
  }

  lemma NotPrefixOfPiece(key: string, piece: string, longer: string)
    requires !(key <= longer) && piece < longer
    ensures !(key <= piece)
  {}

  /** If some piece can grow, some values show it: the result is too long. */
  lemma GrowthBreaks(template: string, params: seq<Param>) returns (other: seq<Param>)
    requires Plain(params) && Ordered(params) && !Separate(template, params)
    ensures SameShape(other, params) && Plain(other) && Sequential(template, other) != Substitute(template, other)
  {
    var tails := Cut(template).tails;
    var k, i, max;
    k, i, max, other := GrowingValues(tails, params);
    BreakingLength(template, other, k, i, max);
  }

  lemma SomeGrowing(tails: seq<string>, params: seq<Param>) returns (k: nat, i: nat)
    requires !AllApart(tails, params, 0)
    ensures k + 1 < |tails| && i < Last(tails[k + 1], params) && tails[k] < params[i].key
    ensures Growing(tails, params, k, i) && AllApart(tails, params, i + 1)
  {
    k :| k < |tails| - 1 && !Apart(tails[k], tails[k + 1], params, 0);
    i :| i < Last(tails[k + 1], params)
         && Grows(tails[k], params[i].key, params[Last(tails[k + 1], params)].value);
    k, i := FirstGrown(tails, params, k, i);
  }

  lemma GrowingValues(tails: seq<string>, params: seq<Param>) returns (k: nat, i: nat, max: nat, other: seq<Param>)
    requires Plain(params) && Ordered(params) && !AllApart(tails, params, 0)
    ensures SameShape(other, params) && Breaking(tails, other, k, i, max)
  {
    hide *;
    k, i := SomeGrowing(tails, params);
    max := SomeBound(params);
    assert |tails| * (max + 3) >= 0;
    var rest := params[i].key[|tails[k]|..];
    other := Completing(params, i, Last(tails[k + 1], params), rest, Zeros(2 * |params[i].key| + 4 + |tails| * (max + 3)));
    ValuesBreak(tails, params, other, k, i, max);
  }

  lemma ValuesBreak(tails: seq<string>, params: seq<Param>, other: seq<Param>, k: nat, i: nat, max: nat)
    requires Plain(params) && Ordered(params) && Within(params, max)
    requires Growing(tails, params, k, i) && AllApart(tails, params, i + 1)
    requires other == Completing(params, i, Last(tails[k + 1], params), params[i].key[|tails[k]|..],
                                 Zeros(2 * |params[i].key| + 4 + |tails| * (max + 3)))
    ensures Breaking(tails, other, k, i, max)
  {
    hide *;
    GrowingFacts(tails, params, k, i);
    var j, key := Last(tails[k + 1], params), params[i].key;
    var long := Zeros(2 * |key| + 4 + |tails| * (max + 3));
    CompletingFacts(params, other, i, j, key[|tails[k]|..], long, max);
    LastByKeys(tails[k + 1], other, params);
    ApartByShape(tails, other, params, i + 1);
    CompletesKey(key, tails[k], params[j].value);
    assert |long| == 2 * |other[i].key| + 4 + |tails| * (max + 3);
    BreakingIs(tails, params, other, k, i, j, max);
  }

  lemma GrowingFacts(tails: seq<string>, params: seq<Param>, k: nat, i: nat)
    requires Growing(tails, params, k, i)
    ensures k + 1 < |tails| && i < Last(tails[k + 1], params) < |params| && tails[k] < params[i].key
    ensures Grows(tails[k], params[i].key, params[Last(tails[k + 1], params)].value)
  {}

  lemma CompletingFacts(params: seq<Param>, other: seq<Param>, i: nat, j: nat, rest: string, long: string, max: nat)
    requires Plain(params) && Ordered(params) && Within(params, max) && i < j < |params|
    requires NoColon(long) && exists n: nat :: n <= |params[i].key| && rest == params[i].key[n..]
    requires other == Completing(params, i, j, rest, long)
    ensures SameShape(other, params) && SameKeys(other, params) && Plain(other) && Ordered(other) && Within(other, max)
    ensures |Printed(other[i].value)| >= |long| && other[j].value == Like(params[j].value, Inside(params[j].value, rest))
    ensures other[i].key == params[i].key && forall m :: 0 <= m < i ==> |Printed(other[m].value)| <= 2
  {
    hide Completing;
    assert NoColon(rest);
  }

  lemma BreakingIs(tails: seq<string>, params: seq<Param>, other: seq<Param>, k: nat, i: nat, j: nat, max: nat)
    requires Plain(other) && Ordered(other) && Within(other, max) && i < j < |params| && SameShape(other, params)
    requires k + 1 < |tails| && Last(tails[k + 1], other) == j && Grows(tails[k], other[i].key, params[j].value)
    requires AllApart(tails, other, i + 1) && other[i].key <= tails[k] + Printed(other[j].value)
    requires |Printed(other[i].value)| >= 2 * |other[i].key| + 4 + |tails| * (max + 3)
    requires forall m :: 0 <= m < i ==> |Printed(other[m].value)| <= 2
    ensures Breaking(tails, other, k, i, max)
  {
    hide Last, AllApart, Plain, Ordered, Within, Printed;
  }

  lemma CompletesKey(key: string, piece: string, v: Value)
    requires Grows(piece, key, v)
    ensures key <= piece + Printed(Like(v, Inside(v, key[|piece|..])))
  {
    var rest := key[|piece|..];
    InsideStarts(v, rest);
    assert key == piece + rest;
  }

  lemma ApartByShape(tails: seq<string>, a: seq<Param>, b: seq<Param>, from: nat)
    requires SameShape(a, b)
    ensures AllApart(tails, a, from) == AllApart(tails, b, from)
  {
    forall k | 0 <= k < |tails| - 1 ensures Apart(tails[k], tails[k + 1], a, from) == Apart(tails[k], tails[k + 1], b, from) {
      LastByKeys(tails[k + 1], a, b);
    }
  }

  ghost predicate Breaking(tails: seq<string>, params: seq<Param>, k: nat, i: nat, max: nat) {
    && Plain(params) && Ordered(params) && Within(params, max) && i < |params|
    && Completed(tails, params, k, i) && AllApart(tails, params, i + 1)
    && |Printed(params[i].value)| >= 2 * |params[i].key| + 4 + |tails| * (max + 3)
    && forall m :: 0 <= m < i ==> |Printed(params[m].value)| <= 2
  }

  lemma BreakingLength(template: string, params: seq<Param>, k: nat, i: nat, max: nat)
    requires Breaking(Cut(template).tails, params, k, i, max)
    ensures |Sequential(template, params)| > |Substitute(template, params)|
  {
    hide *;
    var head, tails := Cut(template).head, Cut(template).tails;
    BreakingFacts(tails, params, k, i, max);
    var text := Replace(AllShown(tails, params, i + 1), ":" + params[i].key, Printed(params[i].value));
    SubstituteIs(template, params);
    SequentialFrom(template, params, i);
    WeightPlain(head, text, max);
    GrownStep(tails, params, i, k, max);
    SequentialWeighs(head + text, params, i, max);
  }

  lemma BreakingFacts(tails: seq<string>, params: seq<Param>, k: nat, i: nat, max: nat)
    requires Breaking(tails, params, k, i, max)
    ensures Plain(params) && Ordered(params) && Within(params, max) && i < |params|
    ensures Completed(tails, params, k, i) && AllApart(tails, params, i + 1)
    ensures |Printed(params[i].value)| >= 2 * |params[i].key| + 4 + |tails| * (max + 3)
    ensures |tails| * (max + 3) >= 0 && forall m :: 0 <= m < i ==> |Printed(params[m].value)| <= 2
  {
    hide Plain, Ordered, Within, Completed, AllApart, Printed;
  }

  lemma SubstituteIs(template: string, params: seq<Param>)
    requires Plain(params) && Ordered(params)
    ensures Substitute(template, params) == Cut(template).head + AllShown(Cut(template).tails, params, 0)
    ensures NoColon(Cut(template).head) && NoColons(Cut(template).tails)
  {
    var p := Cut(template);
    CutShown(template, params);
    SubstituteSkips(p.head, AllShown(p.tails, params, |params|), params);
    SubstituteShows(p.tails, params);
  }

  /** Down to parameter `i` the pieces do not grow. */
  lemma SequentialFrom(template: string, params: seq<Param>, i: nat)
    requires Plain(params) && i < |params| && AllApart(Cut(template).tails, params, i + 1)
    ensures var text := Replace(AllShown(Cut(template).tails, params, i + 1), ":" + params[i].key, Printed(params[i].value));
            Sequential(template, params) == Sequential(Cut(template).head + text, params[..i])
  {
    hide AllShown, Replace, Plain, AllApart, Last;
    var p := Cut(template);
    CutShown(template, params);
    SequentialShows(p.head, p.tails, params, |params|, i + 1);
    assert params[..|params|] == params && params[..i + 1][..i] == params[..i];
    ReplaceSkips(p.head, AllShown(p.tails, params, i + 1), params[i].key, Printed(params[i].value));
  }
}

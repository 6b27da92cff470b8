// What stands in the written SQL text, piece by piece
// (keep/searchengine/searchengine.py, _create_raw_sql).
module SqlPieces {
  import opened SqlPlaceholders

  /** Literals with something between each two of them. */
  function Woven(literals: seq<string>, between: seq<string>): string
    requires |literals| == |between| + 1
    decreases between
  {
    if between == [] then literals[0] else literals[0] + between[0] + Woven(literals[1..], between[1..])
  }

  function Placeholders(params: seq<Param>, uses: seq<nat>): (r: seq<string>)
    requires forall k :: 0 <= k < |uses| ==> uses[k] < |params|
    ensures |r| == |uses|
  {
    seq(|uses|, k requires 0 <= k < |uses| => ":" + params[uses[k]].key)
  }

  function Values(params: seq<Param>, uses: seq<nat>): (r: seq<string>)
    requires forall k :: 0 <= k < |uses| ==> uses[k] < |params|
    ensures |r| == |uses|
  {
    seq(|uses|, k requires 0 <= k < |uses| =>
      match params[uses[k]].value
      case Text(text) => "'" + text + "'"
      case Other(printed) => printed)
  }

  /** No key stands behind a colon of this literal. */
  predicate Without(literal: string, params: seq<Param>) {
    forall j, i :: 0 <= j < |literal| && literal[j] == ':' && 0 <= i < |params| ==> !(params[i].key <= literal[j + 1..])
  }

  /** No key fits better than the one used, in front of the literal that follows it. */
  predicate Best(params: seq<Param>, use: nat, literal: string)
    requires use < |params|
  {
    forall i :: 0 <= i < |params| && params[i].key <= params[use].key + literal ==> |params[i].key| <= |params[use].key|
  }

  /** Every literal is without keys, and every placeholder has the best one. */
  ghost predicate Fits(params: seq<Param>, literals: seq<string>, uses: seq<nat>) {
    && |literals| == |uses| + 1 && (forall k :: 0 <= k < |uses| ==> uses[k] < |params|)
    && (forall k :: 0 <= k < |literals| ==> Without(literals[k], params))
    && (forall k :: 0 <= k < |uses| ==> Best(params, uses[k], literals[k + 1]))
  }

  /** `template` is made of literals and of placeholders, each with the longest key that fits,
      and `sql` of the same literals and, in place of each placeholder, the value: a string in
      quotes, anything else as it is printed. */
  ghost predicate Written(template: string, sql: string, params: seq<Param>, literals: seq<string>, uses: seq<nat>) {
    && Fits(params, literals, uses)
    && template == Woven(literals, Placeholders(params, uses))
    && sql == Woven(literals, Values(params, uses))
  }

  lemma StartsWithLiteral(literals: seq<string>, between: seq<string>)
    requires |literals| == |between| + 1
    ensures literals[0] <= Woven(literals, between)
  {}

  /** A placeholder in front. */
  lemma WrittenHit(template: string, sql: string, params: seq<Param>, literals: seq<string>, uses: seq<nat>, i: nat)
    requires Written(template, sql, params, literals, uses) && i < |params|
    requires forall k :: 0 <= k < |params| && params[k].key <= params[i].key + template ==> |params[k].key| <= |params[i].key|
    ensures Written(":" + params[i].key + template,
                    (if params[i].value.Text? then "'" + params[i].value.text + "'" else params[i].value.printed) + sql,
                    params, [""] + literals, [i] + uses)
  {
    var value := if params[i].value.Text? then "'" + params[i].value.text + "'" else params[i].value.printed;
    StartsWithLiteral(literals, Placeholders(params, uses));
    BestHere(params, i, template, literals[0]);
    FitsHit(params, literals, uses, i);
    assert Placeholders(params, [i] + uses) == [":" + params[i].key] + Placeholders(params, uses);
    assert Values(params, [i] + uses) == [value] + Values(params, uses);
    hide Fits, Placeholders, Values, Woven;
    WovenFirst("", ":" + params[i].key, literals, Placeholders(params, uses));
    WovenFirst("", value, literals, Values(params, uses));
    assert "" + (":" + params[i].key) == ":" + params[i].key && "" + value == value;
  }

  lemma WovenFirst(literal: string, fill: string, literals: seq<string>, between: seq<string>)
    requires |literals| == |between| + 1
    ensures Woven([literal] + literals, [fill] + between) == literal + fill + Woven(literals, between)
  {
    assert ([literal] + literals)[1..] == literals && ([fill] + between)[1..] == between;
  }

  lemma FitsHit(params: seq<Param>, literals: seq<string>, uses: seq<nat>, i: nat)
    requires Fits(params, literals, uses) && i < |params| && Best(params, i, literals[0])
    ensures Fits(params, [""] + literals, [i] + uses)
  {
    assert Without("", params);
    hide Without, Best;
  }

  lemma BestHere(params: seq<Param>, i: nat, text: string, literal: string)
    requires i < |params| && literal <= text
    requires forall k :: 0 <= k < |params| && params[k].key <= params[i].key + text ==> |params[k].key| <= |params[i].key|
    ensures Best(params, i, literal)
  {}

  /** Another character in front. */
  lemma WrittenSkip(c: char, template: string, sql: string, params: seq<Param>, literals: seq<string>, uses: seq<nat>)
    requires Written(template, sql, params, literals, uses)
    requires c == ':' ==> forall k :: 0 <= k < |params| ==> !(params[k].key <= template)
    ensures Written([c] + template, [c] + sql, params, [[c] + literals[0]] + literals[1..], uses)
  {
    var more := [[c] + literals[0]] + literals[1..];
    assert more[1..] == literals[1..];
    StartsWithLiteral(literals, Placeholders(params, uses));
    WovenSkip(c, literals, Placeholders(params, uses));
    WovenSkip(c, literals, Values(params, uses));
    assert Without(more[0], params) by {
      assert Without(literals[0], params);
      forall j, i | 0 <= j < |more[0]| && more[0][j] == ':' && 0 <= i < |params|
        ensures !(params[i].key <= more[0][j + 1..])
      {
        if j > 0 {
          assert literals[0][j - 1] == ':' && more[0][j + 1..] == literals[0][j - 1 + 1..];
        } else {
          assert more[0][1..] == literals[0];
        }
      }
    }
    hide Without, Best, Placeholders, Values, Woven;
  }

  lemma WovenSkip(c: char, literals: seq<string>, between: seq<string>)
    requires |literals| == |between| + 1
    ensures Woven([[c] + literals[0]] + literals[1..], between) == [c] + Woven(literals, between)
  {
    var more := [[c] + literals[0]] + literals[1..];
    if between != [] {
      assert more[1..] == literals[1..];
      assert [c] + (literals[0] + between[0] + Woven(literals[1..], between[1..]))
          == ([c] + literals[0]) + between[0] + Woven(literals[1..], between[1..]);
    }
  }

  /** Writing all placeholders at once, on any template with any parameters. */
  lemma {:induction false} SubstituteWrites(template: string, params: seq<Param>)
    returns (literals: seq<string>, uses: seq<nat>)
    ensures Written(template, Substitute(template, params), params, literals, uses)
    decreases |template|
  {
    if template == "" {
      literals, uses := [""], [];
      assert Placeholders(params, []) == [] && Values(params, []) == [];
    } else {
      var rest := template[1..];
      assert template == [template[0]] + rest;
      var i := Longest(rest, params);
      if template[0] == ':' && i >= 0 {
        var key := params[i].key;
        var rest' := rest[|key|..];
        assert rest == key + rest' && template == ":" + key + rest';
        literals, uses := SubstituteWrites(rest', params);
        WrittenHit(rest', Substitute(rest', params), params, literals, uses, i);
        literals, uses := [""] + literals, [i] + uses;
      } else {
        literals, uses := SubstituteWrites(rest, params);
        WrittenSkip(template[0], rest, Substitute(rest, params), params, literals, uses);
        literals := [[template[0]] + literals[0]] + literals[1..];
      }
    }
    hide Written, Longest;
  }

  /** And so does the program, one parameter after the other, under the condition for that. */
  lemma SequentialWrites(template: string, params: seq<Param>) returns (literals: seq<string>, uses: seq<nat>)
    requires Plain(params) && Ordered(params) && Separate(template, params)
    ensures Written(template, Sequential(template, params), params, literals, uses)
  {
    SequentialIsSimultaneous(template, params);
    literals, uses := SubstituteWrites(template, params);
  }

  // ---- Quotes ----

  function Quotes(text: string): nat {
    if text == "" then 0 else (if text[0] == '\'' then 1 else 0) + Quotes(text[1..])
  }

  lemma {:induction false} QuotesConcat(a: string, b: string)
    ensures Quotes(a + b) == Quotes(a) + Quotes(b)
  {
    if a == "" {
      assert a + b == b;
    } else {
      assert (a + b)[1..] == a[1..] + b;
      QuotesConcat(a[1..], b);
    }
  }

  lemma {:induction false} NoQuotes(text: string)
    requires '\'' !in text
    ensures Quotes(text) == 0
  {
    if text != "" {
      NoQuotes(text[1..]);
    }
  }

  /** Neither the key nor what the value holds has a quote. */
  predicate Unquoted(p: Param) {
    '\'' !in p.key && '\'' !in (if p.value.Text? then p.value.text else p.value.printed)
  }

  /** How many of the used values are strings. */
  function Strings(params: seq<Param>, uses: seq<nat>): nat
    requires forall k :: 0 <= k < |uses| ==> uses[k] < |params|
  {
    if uses == [] then 0 else (if params[uses[0]].value.Text? then 1 else 0) + Strings(params, uses[1..])
  }

  lemma {:induction false} WovenQuotes(params: seq<Param>, literals: seq<string>, uses: seq<nat>)
    requires |literals| == |uses| + 1 && (forall k :: 0 <= k < |uses| ==> uses[k] < |params| && Unquoted(params[uses[k]]))
    ensures Quotes(Woven(literals, Values(params, uses)))
         == Quotes(Woven(literals, Placeholders(params, uses))) + 2 * Strings(params, uses)
    decreases uses
  {
    if uses != [] {
      var p := params[uses[0]];
      var content := if p.value.Text? then p.value.text else p.value.printed;
      assert Values(params, uses)[1..] == Values(params, uses[1..]);
      assert Placeholders(params, uses)[1..] == Placeholders(params, uses[1..]);
      WovenQuotes(params, literals[1..], uses[1..]);
      NoQuotes(":" + p.key);
      NoQuotes(content);
      QuotedString(content);
      MoreQuotes(literals[0], ":" + p.key, Woven(literals[1..], Placeholders(params, uses[1..])));
      MoreQuotes(literals[0], if p.value.Text? then "'" + content + "'" else content,
                 Woven(literals[1..], Values(params, uses[1..])));
      hide Quotes;
    }
  }

  lemma QuotedString(content: string)
    ensures Quotes("'" + content + "'") == Quotes(content) + 2
  {
    MoreQuotes("'", content, "'");
    assert "'"[1..] == "";
  }

  lemma MoreQuotes(a: string, b: string, c: string)
    ensures Quotes(a + b + c) == Quotes(a) + Quotes(b) + Quotes(c)
  {
    QuotesConcat(a + b, c);
    QuotesConcat(a, b);
  }

  /** When no key and no value has a quote in it, the written text has the template's quotes
      and two more for each string that was written. */
  lemma QuotesAddUp(template: string, params: seq<Param>) returns (literals: seq<string>, uses: seq<nat>)
    requires Plain(params) && Ordered(params) && Separate(template, params)
    requires forall k :: 0 <= k < |params| ==> Unquoted(params[k])
    ensures Written(template, Sequential(template, params), params, literals, uses)
    ensures Quotes(Sequential(template, params)) == Quotes(template) + 2 * Strings(params, uses)
  {
    literals, uses := SequentialWrites(template, params);
    WovenQuotes(params, literals, uses);
    hide Quotes, Strings, Sequential, Woven;
  }
}

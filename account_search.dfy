/**
 * The bank and party search routes. Both trim `q`, escape it so that it is
 * matched as literal text (case-insensitively) against account names, clamp
 * `limit` to [1, 50] with 10 as the fallback, and list `{ id, name, code }`
 * with a missing code shown as ''.
 */
module AccountSearch {
  import opened Wrappers
  import opened Text
  import opened SearchParams

  /** The metacharacters of the class `[.*+?^${}()|[\]\\]`. */
  predicate IsRegexSpecial(c: char) {
    c in ".*+?^${}()|[]\\"
  }

  /** How many metacharacters `s` holds. */
  function Specials(s: string): nat {
    if s == [] then 0 else (if IsRegexSpecial(s[0]) then 1 else 0) + Specials(s[1..])
  }

  /** `s.replace(/[.*+?^${}()|[\]\\]/g, '\\$&')`: a backslash before each metacharacter. */
  function EscapeRegex(s: string): (r: string)
    ensures |r| == |s| + Specials(s)
  {
    if s == [] then []
    else if IsRegexSpecial(s[0]) then ['\\', s[0]] + EscapeRegex(s[1..])
    else [s[0]] + EscapeRegex(s[1..])
  }

  /**
   * The text a pattern stands for when it is made only of ordinary characters
   * and backslash-escaped metacharacters; none for any other pattern.
   */
  function LiteralOf(pattern: string): Option<string> {
    if pattern == [] then Some([])
    else if pattern[0] == '\\' then
      if |pattern| >= 2 && IsRegexSpecial(pattern[1]) then
        match LiteralOf(pattern[2..])
        case None => None
        case Some(t) => Some([pattern[1]] + t)
      else None
    else if IsRegexSpecial(pattern[0]) then None
    else
      match LiteralOf(pattern[1..])
      case None => None
      case Some(t) => Some([pattern[0]] + t)
  }

  /** An escaped string is a pattern that matches exactly its original text. */
  lemma {:induction false} EscapeRegexIsLiteral(s: string)
    ensures LiteralOf(EscapeRegex(s)) == Some(s)
  {
    if s != [] {
      EscapeRegexIsLiteral(s[1..]);
      var e := EscapeRegex(s);
      if IsRegexSpecial(s[0]) {
        assert e[2..] == EscapeRegex(s[1..]);
      } else {
        assert e[1..] == EscapeRegex(s[1..]);
      }
      assert [s[0]] + s[1..] == s;
    }
  }

  /** Text without metacharacters is left as it is. */
  lemma {:induction false} PlainTextIsUnchanged(s: string)
    requires forall i :: 0 <= i < |s| ==> !IsRegexSpecial(s[i])
    ensures EscapeRegex(s) == s
  {
    if s != [] {
      PlainTextIsUnchanged(s[1..]);
      assert [s[0]] + s[1..] == s;
    }
  }

  /** `name` contains `text`, ASCII letters compared without case. */
  predicate ContainsFolded(name: string, text: string) {
    exists i :: 0 <= i <= |name| - |text| && FoldedAt(name, text, i)
  }

  /** `text` occurs in `name` at position `i`, ASCII letters compared without case. */
  predicate FoldedAt(name: string, text: string, i: int) {
    0 <= i && i + |text| <= |name| && Lower(name[i..i + |text|]) == Lower(text)
  }

  datatype AccountKind = Bank | Party

  /** A Mongo `$regex` condition with the `i` option. */
  datatype Regex = Regex(pattern: string, ignoreCase: bool)

  /** `{ type, name?: { $regex, $options: 'i' } }` */
  datatype AccountFilter = AccountFilter(kind: AccountKind, name: Option<Regex>)

  /** The trimmed `q` parameter; a missing one reads as ''. */
  function QueryText(qParam: Option<string>): string {
    Trim(qParam.GetOr(""))
  }

  /** The filter sent to the database: the name condition is present only for a non-empty trimmed `q`. */
  function FilterFor(kind: AccountKind, qParam: Option<string>): (f: AccountFilter)
    ensures f.kind == kind
    ensures f.name.Some? <==> QueryText(qParam) != ""
    ensures f.name.Some? ==> f.name.value.ignoreCase && LiteralOf(f.name.value.pattern) == Some(QueryText(qParam))
  {
    var q := QueryText(qParam);
    EscapeRegexIsLiteral(q);
    AccountFilter(kind, if q != "" then Some(Regex(EscapeRegex(q), true)) else None)
  }

  /** `limit`: in [1, 50], 10 when missing, empty or not a finite number. */
  function SearchLimit(limitParam: Option<string>): (r: real)
    ensures 1.0 <= r <= 50.0
    ensures limitParam.None? || limitParam == Some("") ==> r == 10.0
    ensures limitParam.Some? && JsNumber(limitParam.value).None? ==> r == 10.0
  {
    LimitOr(limitParam, 10, 50.0)
  }

  datatype AccountDoc = AccountDoc(id: string, kind: AccountKind, name: string, code: Option<string>)

  /**
   * Whether an account satisfies a filter. Only patterns that spell literal
   * text are given a meaning; any other pattern selects nothing here.
   */
  predicate Selects(f: AccountFilter, d: AccountDoc) {
    && d.kind == f.kind
    && (f.name.Some? ==> LiteralOf(f.name.value.pattern).Some? && ContainsFolded(d.name, LiteralOf(f.name.value.pattern).value))
  }

  /** `f` is the filter for accounts of `kind` whose name contains `q`. */
  predicate Denotes(f: AccountFilter, kind: AccountKind, q: string) {
    && f.kind == kind
    && (f.name.Some? <==> q != "")
    && (f.name.Some? ==> LiteralOf(f.name.value.pattern) == Some(q))
  }

  lemma SelectsMeaning(f: AccountFilter, kind: AccountKind, q: string, d: AccountDoc)
    requires Denotes(f, kind, q)
    ensures Selects(f, d) <==> d.kind == kind && ContainsFolded(d.name, q)
  {
    if q == "" {
      assert FoldedAt(d.name, "", 0);
    }
  }

  /** The route's filter keeps exactly the accounts of its kind whose name contains the trimmed `q`. */
  lemma FilterMeaning(kind: AccountKind, qParam: Option<string>, d: AccountDoc)
    ensures Selects(FilterFor(kind, qParam), d) <==> d.kind == kind && ContainsFolded(d.name, QueryText(qParam))
  {
    SelectsMeaning(FilterFor(kind, qParam), kind, QueryText(qParam), d);
  }

  /** One listed entry. */
  datatype Choice = Choice(id: string, name: string, code: string)

  /** `{ id, name, code: d.code ?? '' }` */
  function ChoiceOf(d: AccountDoc): Choice {
    Choice(d.id, d.name, d.code.GetOr(""))
  }

  /** `docs.map(...)`: one entry per account, in the same order. */
  function Choices(docs: seq<AccountDoc>): (r: seq<Choice>)
    ensures |r| == |docs|
    ensures forall i :: 0 <= i < |docs| ==> r[i] == ChoiceOf(docs[i])
  {
    if docs == [] then [] else [ChoiceOf(docs[0])] + Choices(docs[1..])
  }

  /** The accounts a filter keeps, in collection order. */
  function Matching(accounts: seq<AccountDoc>, f: AccountFilter): (r: seq<AccountDoc>)
    ensures |r| <= |accounts|
  {
    if accounts == [] then []
    else if Selects(f, accounts[0]) then [accounts[0]] + Matching(accounts[1..], f)
    else Matching(accounts[1..], f)
  }

  lemma {:induction false} MatchingMembers(accounts: seq<AccountDoc>, f: AccountFilter, d: AccountDoc)
    ensures d in Matching(accounts, f) <==> d in accounts && Selects(f, d)
  {
    if accounts != [] {
      MatchingMembers(accounts[1..], f, d);
      assert accounts == [accounts[0]] + accounts[1..];
    }
  }

  /** The first `n` of the accounts found, listed as choices. */
  function Listed(found: seq<AccountDoc>, n: nat): (r: seq<Choice>)
    ensures |r| <= n && |r| <= |found|
  {
    Choices(if n < |found| then found[..n] else found)
  }

  /** The listed choices are the first accounts found, in order. */
  lemma ListedAt(found: seq<AccountDoc>, n: nat, i: nat)
    requires i < |Listed(found, n)|
    ensures i < |found| && Listed(found, n)[i] == ChoiceOf(found[i])
  {
  }

  /** When no more accounts are found than `n`, all of them are listed. */
  lemma ListedAll(found: seq<AccountDoc>, n: nat, d: AccountDoc)
    requires |found| <= n && d in found
    ensures ChoiceOf(d) in Listed(found, n)
  {
    var k :| 0 <= k < |found| && found[k] == d;
    assert Listed(found, n)[k] == ChoiceOf(d);
  }

  /** How many matches `.limit(limit)` lets through: the whole part of the limit. */
  function ListedCount(limitParam: Option<string>): (n: nat)
    ensures 1 <= n <= 50
  {
    var x := SearchLimit(limitParam);
    assert 1 <= x.Floor <= 50;
    x.Floor
  }

  /**
   * The first `count` accounts of the collection that the filter keeps,
   * listed as choices. The collection is read in its natural order.
   */
  function Search(kind: AccountKind, qParam: Option<string>, count: nat, accounts: seq<AccountDoc>): (r: seq<Choice>)
    ensures var found := Matching(accounts, FilterFor(kind, qParam));
      |r| == (if count < |found| then count else |found|)
    ensures |r| <= |accounts|
  {
    Listed(Matching(accounts, FilterFor(kind, qParam)), count)
  }

  /**
   * `GET`: the search with the `limit` parameter read; a fractional limit is
   * cut to its whole part, so never more than 50 entries are listed.
   */
  function Get(kind: AccountKind, qParam: Option<string>, limitParam: Option<string>, accounts: seq<AccountDoc>): (r: seq<Choice>)
    ensures |r| <= 50
    ensures r == [] <==> Matching(accounts, FilterFor(kind, qParam)) == []
  {
    Search(kind, qParam, ListedCount(limitParam), accounts)
  }

  lemma MatchingMeaning(accounts: seq<AccountDoc>, f: AccountFilter, kind: AccountKind, q: string, d: AccountDoc)
    requires Denotes(f, kind, q)
    ensures d in Matching(accounts, f) <==> d in accounts && d.kind == kind && ContainsFolded(d.name, q)
  {
    MatchingMembers(accounts, f, d);
    SelectsMeaning(f, kind, q, d);
  }

  lemma ListedIsComplete(accounts: seq<AccountDoc>, f: AccountFilter, kind: AccountKind, q: string, count: nat, d: AccountDoc)
    requires Denotes(f, kind, q)
    requires |Matching(accounts, f)| <= count
    requires d in accounts && d.kind == kind && ContainsFolded(d.name, q)
    ensures ChoiceOf(d) in Listed(Matching(accounts, f), count)
  {
    MatchingMeaning(accounts, f, kind, q, d);
    ListedAll(Matching(accounts, f), count, d);
  }

  /** The accounts found are exactly those of the requested kind whose name contains the trimmed query. */
  lemma FoundMembers(kind: AccountKind, qParam: Option<string>, accounts: seq<AccountDoc>, d: AccountDoc)
    ensures d in Matching(accounts, FilterFor(kind, qParam))
      <==> d in accounts && d.kind == kind && ContainsFolded(d.name, QueryText(qParam))
  {
    MatchingMeaning(accounts, FilterFor(kind, qParam), kind, QueryText(qParam), d);
  }

  /**
   * The i-th listed entry is the i-th account found, and that account is of
   * the requested kind and has a name containing the trimmed query.
   */
  lemma SearchIsSound(kind: AccountKind, qParam: Option<string>, count: nat, accounts: seq<AccountDoc>, i: nat)
    requires i < |Search(kind, qParam, count, accounts)|
    ensures var found := Matching(accounts, FilterFor(kind, qParam));
      && i < |found|
      && Search(kind, qParam, count, accounts)[i] == ChoiceOf(found[i])
      && found[i] in accounts && found[i].kind == kind && ContainsFolded(found[i].name, QueryText(qParam))
  {
    var found := Matching(accounts, FilterFor(kind, qParam));
    ListedAt(found, count, i);
    FoundMembers(kind, qParam, accounts, found[i]);
  }

  /** When no more accounts match than the count allows, every one of them is listed. */
  lemma SearchIsComplete(kind: AccountKind, qParam: Option<string>, count: nat, accounts: seq<AccountDoc>, d: AccountDoc)
    requires |Matching(accounts, FilterFor(kind, qParam))| <= count
    requires d in accounts && d.kind == kind && ContainsFolded(d.name, QueryText(qParam))
    ensures ChoiceOf(d) in Search(kind, qParam, count, accounts)
  {
    ListedIsComplete(accounts, FilterFor(kind, qParam), kind, QueryText(qParam), count, d);
  }
}

/**
 * Creating a ledger category: the name is required, the slug is derived from
 * it, and every category starts with the columns date, description, debit
 * and credit.
 */
module Categories {
  import opened Wrappers
  import opened Text

  /** The characters a slug keeps: `[a-z0-9]`. */
  predicate IsSlugChar(c: char) {
    'a' <= c <= 'z' || '0' <= c <= '9'
  }

  /** Drops the run of non-slug characters that opens `s`. */
  function SkipRun(s: string): (r: string)
    ensures |r| <= |s| && r == s[|s| - |r|..]
    ensures r == [] || IsSlugChar(r[0])
  {
    if s != [] && !IsSlugChar(s[0]) then
      var r := SkipRun(s[1..]);
      assert s[1..][|s| - 1 - |r|..] == s[|s| - |r|..];
      r
    else s
  }

  /** `t.replace(/[^a-z0-9]+/g, '-')`: each maximal run of other characters becomes one `-`. */
  function Collapse(t: string): (r: string)
    ensures |r| <= |t|
    ensures t != [] ==> r != []
    decreases |t|
  {
    if t == [] then []
    else if IsSlugChar(t[0]) then [t[0]] + Collapse(t[1..])
    else "-" + Collapse(SkipRun(t[1..]))
  }

  /**
   * `name.toLowerCase().replace(/[^a-z0-9]+/g, '-')`: only `a-z`, `0-9` and
   * `-`, never `--`, never longer than the name and empty only for an empty name.
   */
  function Slug(name: string): (r: string)
    ensures IsSlug(r)
    ensures |r| <= |name| && (r == [] <==> name == [])
  {
    CollapseIsSlug(Lower(name));
    Collapse(Lower(name))
  }

  /** A well-formed slug: only `a-z`, `0-9` and `-`, and never two dashes in a row. */
  predicate IsSlug(s: string) {
    && (forall i :: 0 <= i < |s| ==> IsSlugChar(s[i]) || s[i] == '-')
    && (forall i :: 0 <= i < |s| - 1 ==> !(s[i] == '-' && s[i + 1] == '-'))
  }

  /** The characters `Collapse` keeps, in order. */
  function Kept(s: string): string {
    if s == [] then [] else (if IsSlugChar(s[0]) then [s[0]] else []) + Kept(s[1..])
  }

  /** The output of `Collapse` is a slug that starts with a slug character whenever its input does. */
  lemma {:induction false} CollapseIsSlug(t: string)
    ensures IsSlug(Collapse(t))
    ensures t != [] ==> Collapse(t) != [] && (IsSlugChar(t[0]) <==> Collapse(t)[0] != '-')
  {
    if t != [] {
      if IsSlugChar(t[0]) {
        CollapseIsSlug(t[1..]);
      } else {
        var rest := SkipRun(t[1..]);
        CollapseIsSlug(rest);
        var r := Collapse(t);
        assert r == "-" + Collapse(rest);
        assert rest != [] ==> Collapse(rest)[0] != '-';
      }
    }
  }

  /** Collapsing keeps exactly the slug characters of its input, in order. */
  lemma {:induction false} CollapseKeeps(t: string)
    ensures Kept(Collapse(t)) == Kept(t)
  {
    if t != [] {
      if IsSlugChar(t[0]) {
        CollapseKeeps(t[1..]);
        assert (([t[0]] + Collapse(t[1..])))[1..] == Collapse(t[1..]);
      } else {
        var rest := SkipRun(t[1..]);
        CollapseKeeps(rest);
        SkipRunKeepsNothing(t[1..]);
        assert ("-" + Collapse(rest))[1..] == Collapse(rest);
      }
    }
  }

  lemma {:induction false} SkipRunKeepsNothing(s: string)
    ensures Kept(SkipRun(s)) == Kept(s)
  {
    if s != [] && !IsSlugChar(s[0]) {
      SkipRunKeepsNothing(s[1..]);
    }
  }

  /** A slug is left as it is by collapsing. */
  lemma {:induction false} CollapseOfSlug(s: string)
    requires IsSlug(s)
    ensures Collapse(s) == s
  {
    if s != [] {
      var t := s[1..];
      SlugTail(s);
      CollapseOfSlug(t);
      if IsSlugChar(s[0]) {
        assert Collapse(s) == [s[0]] + Collapse(t);
      } else {
        assert s[0] == '-';
        if t != [] {
          assert !(s[0] == '-' && s[1] == '-');
          assert IsSlugChar(t[0]);
        }
        assert SkipRun(t) == t;
        assert Collapse(s) == "-" + Collapse(t);
      }
      assert s == [s[0]] + t;
    }
  }

  /** Dropping the first character of a slug leaves a slug. */
  lemma SlugTail(s: string)
    requires s != [] && IsSlug(s)
    ensures IsSlug(s[1..])
  {
    var t := s[1..];
    forall i | 0 <= i < |t| ensures IsSlugChar(t[i]) || t[i] == '-' {
      assert t[i] == s[i + 1];
    }
    forall i | 0 <= i < |t| - 1 ensures !(t[i] == '-' && t[i + 1] == '-') {
      assert t[i] == s[i + 1] && t[i + 1] == s[i + 2];
    }
  }

  /** A slug has no upper-case letters. */
  lemma LowerOfSlug(s: string)
    requires IsSlug(s)
    ensures Lower(s) == s
  {
    LowerAt(s);
  }

  /** The slug keeps the letters and digits of the lower-cased name, in order. */
  lemma SlugKeepsLettersAndDigits(name: string)
    ensures Kept(Slug(name)) == Kept(Lower(name))
  {
    CollapseKeeps(Lower(name));
  }

  /** Slugging a slug changes nothing. */
  lemma SlugIsIdempotent(name: string)
    ensures Slug(Slug(name)) == Slug(name)
  {
    var s := Slug(name);
    CollapseIsSlug(Lower(name));
    LowerOfSlug(s);
    CollapseOfSlug(s);
  }

  /** A run that is skipped to its end finishes with a non-slug character. */
  lemma {:induction false} SkipRunToEnd(s: string)
    requires s != [] && SkipRun(s) == []
    ensures !IsSlugChar(s[|s| - 1])
  {
    if |s| > 1 {
      SkipRunToEnd(s[1..]);
    }
  }

  /** The output of `Collapse` ends with `-` exactly when its input ends with a non-slug character. */
  lemma {:induction false} CollapseLast(t: string)
    requires t != []
    ensures Collapse(t) != [] && (Collapse(t)[|Collapse(t)| - 1] == '-' <==> !IsSlugChar(t[|t| - 1]))
    decreases |t|, 1
  {
    var r := Collapse(t);
    if IsSlugChar(t[0]) {
      assert r == [t[0]] + Collapse(t[1..]);
      if |t| > 1 {
        CollapseLast(t[1..]);
        assert r[|r| - 1] == Collapse(t[1..])[|Collapse(t[1..])| - 1];
      }
    } else {
      CollapseLastAfterRun(t);
    }
  }

  /** The case of `CollapseLast` where `t` opens with a run of non-slug characters. */
  lemma {:induction false} CollapseLastAfterRun(t: string)
    requires t != [] && !IsSlugChar(t[0])
    ensures Collapse(t) != [] && (Collapse(t)[|Collapse(t)| - 1] == '-' <==> !IsSlugChar(t[|t| - 1]))
    decreases |t|, 0
  {
    var rest := SkipRun(t[1..]);
    var c := Collapse(rest);
    assert Collapse(t) == "-" + c;
    if rest == [] {
      assert Collapse(t) == "-";
      if |t| > 1 {
        SkipRunToEnd(t[1..]);
        assert t[1..][|t| - 2] == t[|t| - 1];
      }
    } else {
      CollapseLast(rest);
      SkipRunLast(t);
      assert rest[|rest| - 1] == t[|t| - 1];
      assert Collapse(t)[|Collapse(t)| - 1] == c[|c| - 1];
    }
  }

  /** What is left after the opening run of `t[1..]` still ends with the last character of `t`. */
  lemma SkipRunLast(t: string)
    requires t != [] && SkipRun(t[1..]) != []
    ensures var rest := SkipRun(t[1..]); rest[|rest| - 1] == t[|t| - 1]
  {
    var s := t[1..];
    var rest := SkipRun(s);
    assert rest == s[|s| - |rest|..];
    assert s[|s| - 1] == t[|t| - 1];
  }

  /** Leading and trailing runs are kept as dashes, not stripped. */
  lemma SlugEnds(name: string)
    requires name != []
    ensures Slug(name) != []
    ensures Slug(name)[0] == '-' <==> !IsSlugChar(Lower(name)[0])
    ensures Slug(name)[|Slug(name)| - 1] == '-' <==> !IsSlugChar(Lower(name)[|name| - 1])
  {
    CollapseIsSlug(Lower(name));
    CollapseLast(Lower(name));
  }

  datatype ColumnType = DateColumn | TextColumn | NumberColumn

  datatype Column = Column(key: string, caption: string, kind: ColumnType)

  datatype Category = Category(name: string, slug: string, defaultColumns: seq<Column>)

  /** The columns every new category starts with. */
  const DefaultColumns: seq<Column> := [
    Column("date", "Date", DateColumn),
    Column("description", "Description", TextColumn),
    Column("debit", "Debit", NumberColumn),
    Column("credit", "Credit", NumberColumn)
  ]

  /** The default columns, by key, in order. */
  lemma DefaultColumnKeys()
    ensures |DefaultColumns| == 4
    ensures DefaultColumns[0].key == "date" && DefaultColumns[1].key == "description"
    ensures DefaultColumns[2].key == "debit" && DefaultColumns[3].key == "credit"
  {
  }

  /**
   * The outcome of `POST`: 201 with the stored document, 400 when the name is
   * missing or empty, or the validation error the schema raises when the name
   * is nothing but white space (it is trimmed before `required` is checked);
   * the route does not catch that error, so the request fails.
   */
  datatype Reply = Created(category: Category) | MissingName | ValidationFailed

  /**
   * The schema trims the slug and lower-cases it; a well-formed slug has no
   * white space and no capital, so the stored slug is the computed one.
   */
  lemma StoredSlugUnchanged(s: string)
    requires IsSlug(s)
    ensures Trim(s) == s && Lower(s) == s
  {
    LowerOfSlug(s);
    if s != [] {
      NotSpace(s[0]);
      NotSpace(s[|s| - 1]);
      assert TrimStart(s) == s;
      assert TrimEnd(s) == s;
    }
  }

  /** No character a slug holds is white space. */
  lemma NotSpace(c: char)
    requires IsSlugChar(c) || c == '-'
    ensures !IsSpace(c)
  {
  }

  /**
   * `POST`: a missing or empty name gives 400. Otherwise the slug is taken
   * from the name as sent, while the stored name is the trimmed one, so a
   * name of white space only fails the schema's `required` check. The stored
   * document is already in the form the schema normalises to.
   */
  function Create(name: Option<string>): (r: Reply)
    ensures r.MissingName? <==> name.None? || name.value == ""
    ensures r.ValidationFailed? <==> name.Some? && name.value != "" && forall i :: 0 <= i < |name.value| ==> IsSpace(name.value[i])
    ensures r.Created? ==> name.Some? && r.category.slug == Slug(name.value) && IsSlug(r.category.slug)
    ensures r.Created? ==> r.category.name == Trim(name.value) && r.category.name != []
    ensures r.Created? ==> Trim(r.category.name) == r.category.name
    ensures r.Created? ==> Trim(r.category.slug) == r.category.slug && Lower(r.category.slug) == r.category.slug
    ensures r.Created? ==> |r.category.defaultColumns| == 4
    ensures r.Created? ==> r.category.defaultColumns[0].key == "date" && r.category.defaultColumns[1].key == "description"
    ensures r.Created? ==> r.category.defaultColumns[2].key == "debit" && r.category.defaultColumns[3].key == "credit"
  {
    if name.None? || name.value == "" then MissingName
    else
      var given := name.value;
      var trimmed := Trim(given);
      TrimEmpty(given);
      if trimmed == [] then ValidationFailed
      else
        TrimTwice(given);
        StoredSlugUnchanged(Slug(given));
        DefaultColumnKeys();
        Created(Category(trimmed, Slug(given), DefaultColumns))
  }
}

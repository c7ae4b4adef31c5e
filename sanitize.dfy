/** `sanitize_name` (app.py:17-18), which builds every output file name,
    and the base-name defaulting that each handler applies around it. */
module Sanitize {
  import opened Wrappers
  import opened Text

  /** Characters the generator expression keeps as they are. */
  predicate Allowed(c: char)
  {
    IsAlnum(c) || c == '-' || c == '_'
  }

  /** Characters that carry the name's content: letters, digits and dashes. */
  predicate Significant(c: char)
  {
    IsAlnum(c) || c == '-'
  }

  /** The generator expression: each character that is not allowed becomes `_`. */
  function Replace(s: string): string
  {
    seq(|s|, i requires 0 <= i < |s| => if Allowed(s[i]) then s[i] else '_')
  }

  /** What `sanitize_name` can return: non-empty, only allowed characters,
      and no `_` at either end. */
  predicate IsClean(s: string)
  {
    && s != []
    && (forall i :: 0 <= i < |s| ==> Allowed(s[i]))
    && s[0] != '_' && s[|s| - 1] != '_'
  }

  /** `sanitize_name(name)`: replace, strip underscores, fall back to "file". */
  function SanitizeName(name: Option<string>): string
  {
    var stripped := Strip(Replace(OrEmpty(name)), {'_'});
    if stripped == [] then "file" else stripped
  }

  /** Whatever the input, the result is non-empty, made of letters, digits,
      `-` and `_` only, and neither starts nor ends with `_`. */
  lemma SanitizeIsClean(name: Option<string>)
    ensures IsClean(SanitizeName(name))
  {
    var m := Replace(OrEmpty(name));
    var r := Strip(m, {'_'});
    var lo := StripStart(m, {'_'});
    StripSlice(m, {'_'});
    assert forall i :: 0 <= i < |r| ==> r[i] == m[lo + i];
  }

  /** `sanitize_name(base_name) if base_name else fallback`, as every handler
      computes its base name. */
  function BaseName(given: Option<string>, fallback: string): (r: string)
    ensures IsBlank(given) ==> r == fallback
    ensures !IsBlank(given) ==> IsClean(r)
  {
    if IsBlank(given) then fallback else SanitizeIsClean(given); SanitizeName(given)
  }

  /** A string is returned unchanged exactly when it is already clean. */
  lemma SanitizeFixedPoint(s: string)
    ensures SanitizeName(Some(s)) == s <==> IsClean(s)
  {
    SanitizeIsClean(Some(s));
    if IsClean(s) {
      assert Replace(s) == s;
      StripFixes(s, {'_'});
    }
  }

  /** Sanitizing a sanitized name changes nothing. */
  lemma SanitizeIdempotent(name: Option<string>)
    ensures SanitizeName(Some(SanitizeName(name))) == SanitizeName(name)
  {
    SanitizeIsClean(name);
    SanitizeFixedPoint(SanitizeName(name));
  }

  /** A leading or trailing `-` is kept: only underscores are stripped. */
  lemma SanitizeKeepsDashEnds(name: Option<string>)
    ensures var s := OrEmpty(name);
      s != [] && s[0] == '-' ==> SanitizeName(name)[0] == '-'
    ensures var s := OrEmpty(name);
      s != [] && s[|s| - 1] == '-' ==> SanitizeName(name)[|SanitizeName(name)| - 1] == '-'
  {
    var s := OrEmpty(name);
    var m := Replace(s);
    if s != [] && s[0] == '-' {
      StripKeepsFirst(m, {'_'});
    }
    if s != [] && s[|s| - 1] == '-' {
      StripKeepsLast(m, {'_'});
    }
  }

  /** The letters, digits and dashes of `s`, in order. */
  function Keep(s: string): string
  {
    if s == [] then []
    else Keep(s[..|s| - 1]) + (if Significant(s[|s| - 1]) then [s[|s| - 1]] else [])
  }

  lemma {:induction false} KeepAppend(a: string, b: string)
    ensures Keep(a + b) == Keep(a) + Keep(b)
  {
    if b == [] {
      assert a + b == a;
    } else {
      assert (a + b)[..|a + b| - 1] == a + b[..|b| - 1];
      assert (a + b)[|a + b| - 1] == b[|b| - 1];
      KeepAppend(a, b[..|b| - 1]);
    }
  }

  lemma {:induction false} KeepReplace(s: string)
    ensures Keep(Replace(s)) == Keep(s)
  {
    if s != [] {
      assert Replace(s)[..|s| - 1] == Replace(s[..|s| - 1]);
      KeepReplace(s[..|s| - 1]);
    }
  }

  lemma {:induction false} KeepUnderscores(s: string)
    requires forall i :: 0 <= i < |s| ==> s[i] == '_'
    ensures Keep(s) == []
  {
    if s != [] {
      KeepUnderscores(s[..|s| - 1]);
    }
  }

  /** A name with no letter, digit or dash (including `None` and `""`)
      sanitizes to "file". */
  lemma SanitizeFallback(name: Option<string>)
    requires forall i :: 0 <= i < |OrEmpty(name)| ==> !Significant(OrEmpty(name)[i])
    ensures SanitizeName(name) == "file"
  {
    var m := Replace(OrEmpty(name));
    StripEmpty(m, {'_'});
  }

  /** Underscores around `r` add nothing to its letters, digits and dashes. */
  lemma KeepBetweenUnderscores(head: string, r: string, tail: string)
    requires forall k :: 0 <= k < |head| ==> head[k] == '_'
    requires forall k :: 0 <= k < |tail| ==> tail[k] == '_'
    ensures Keep(head + r + tail) == Keep(r)
  {
    KeepUnderscores(head);
    KeepUnderscores(tail);
    KeepAppend(head + r, tail);
    KeepAppend(head, r);
  }

  /** Stripping underscores loses no letter, digit or dash. */
  lemma KeepStrip(m: string)
    ensures Keep(Strip(m, {'_'})) == Keep(m)
  {
    var r := Strip(m, {'_'});
    var lo := StripStart(m, {'_'});
    StripSlice(m, {'_'});
    var head, tail := m[..lo], m[lo + |r|..];
    assert forall k :: 0 <= k < |head| ==> head[k] == m[k];
    assert forall k :: 0 <= k < |tail| ==> tail[k] == m[lo + |r| + k];
    assert m == head + r + tail;
    KeepBetweenUnderscores(head, r, tail);
  }

  /** Otherwise the fallback is not taken, and the result holds exactly the
      letters, digits and dashes of the name, in their order. */
  lemma SanitizeKeepsContent(name: Option<string>)
    requires exists i :: 0 <= i < |OrEmpty(name)| && Significant(OrEmpty(name)[i])
    ensures Keep(SanitizeName(name)) == Keep(OrEmpty(name))
  {
    var s := OrEmpty(name);
    var m := Replace(s);
    var i :| 0 <= i < |s| && Significant(s[i]);
    assert m[i] !in {'_'};
    StripEmpty(m, {'_'});
    KeepStrip(m);
    KeepReplace(s);
  }
}

/** Label sets rendered as text: distinct series never share a rendering. */
module MetricsLabels {
  import opened Text

  type Labels = map<string, string>

  function EscapeChar(c: char): string {
    if c == '\\' then "\\\\" else if c == '"' then "\\\"" else if c == '\n' then "\\n" else [c]
  }

  /** escapeLabel: the three reserved characters, each in front of a backslash. */
  function Escape(v: string): string {
    if v == "" then "" else EscapeChar(v[0]) + Escape(v[1..])
  }

  lemma StartsWithQuoteIff(v: string, a: string)
    ensures (Escape(v) + "\"" + a)[0] == '"' <==> v == ""
  {
    if v != "" { assert (Escape(v) + "\"" + a)[0] == EscapeChar(v[0])[0]; }
  }

  lemma EscapeFirst(v: string, a: string)
    requires v != ""
    ensures Escape(v) + "\"" + a == EscapeChar(v[0]) + (Escape(v[1..]) + "\"" + a)
  {
    hide EscapeChar;
  }

  lemma EmptyEnds(v: string, w: string, a: string, b: string)
    requires (v == "" || w == "") && Escape(v) + "\"" + a == Escape(w) + "\"" + b
    ensures v == w && a == b
  {
    StartsWithQuoteIff(v, a);
    StartsWithQuoteIff(w, b);
    assert (Escape(v) + "\"" + a)[1..] == a && (Escape(w) + "\"" + b)[1..] == b;
  }

  /** An escaped value ends at its closing quote, and at no earlier one. */
  lemma {:induction false} EscapedEnds(v: string, w: string, a: string, b: string)
    requires Escape(v) + "\"" + a == Escape(w) + "\"" + b
    ensures v == w && a == b
  {
    if v == "" || w == "" {
      EmptyEnds(v, w, a, b);
    } else {
      EscapeFirst(v, a);
      EscapeFirst(w, b);
      hide Escape, EscapeChar;
      HeadsMatch(v[0], w[0], Escape(v[1..]) + "\"" + a, Escape(w[1..]) + "\"" + b);
      EscapedEnds(v[1..], w[1..], a, b);
      assert v == [v[0]] + v[1..] && w == [w[0]] + w[1..];
    }
  }

  /** The escapes of single characters form a prefix code. */
  lemma HeadsMatch(c: char, d: char, x: string, y: string)
    requires EscapeChar(c) + x == EscapeChar(d) + y
    ensures c == d && x == y
  {
    var p, q := EscapeChar(c), EscapeChar(d);
    var s := p + x;
    assert s[0] == p[0] && (q + y)[0] == q[0];
    assert |p| == 2 ==> s[1] == p[1];
    assert |q| == 2 ==> (q + y)[1] == q[1];
    assert s[|p|..] == x && (q + y)[|q|..] == y;
  }

  /** A name without '=' ends at the first one. */
  lemma NameEnds(k: string, l: string, a: string, b: string)
    requires '=' !in k && '=' !in l && k + "=" + a == l + "=" + b
    ensures k == l && a == b
  {
    var s := k + "=" + a;
    assert s[..|k|] == k && s[..|l|] == l;
    IndexIsFirst(s, '=', |k|);
    IndexIsFirst(s, '=', |l|);
    assert s[|k| + 1..] == a && s[|l| + 1..] == b;
  }

  // ---------------------------------------------------------------- rendering

  function Pair(k: string, v: string): string { k + "=" + ("\"" + (Escape(v) + "\"")) }

  /** The pairs after the first, and the closing brace. */
  function Rest(l: Labels, keys: seq<string>): string
    requires forall k | k in keys :: k in l
  {
    if keys == [] then "}" else "," + Pair(keys[0], l[keys[0]]) + Rest(l, keys[1..])
  }

  ghost predicate Covers(keys: seq<string>, l: Labels) { forall k | k in keys :: k in l }

  lemma SortedCovers(l: Labels)
    ensures Covers(SortedKeys(l.Keys), l) && (l != map[] ==> SortedKeys(l.Keys) != [])
  {
    SortedKeysEnumerate(l.Keys);
    var keys := SortedKeys(l.Keys);
    assert forall k :: k in keys <==> k in Elements(keys);
    assert l != map[] ==> l.Keys != {};
  }

  ghost function Render(l: Labels): string {
    SortedCovers(l);
    if l == map[] then "" else "{" + Rest(l, SortedKeys(l.Keys))[1..]
  }

  /** The spelling of a label set, and of the pair that comes next. */
  lemma RenderSays(l: Labels, k: string, keys: seq<string>)
    requires k in l && forall x | x in keys :: x in l
    ensures Render(map[]) == "" && Rest(l, []) == "}"
    ensures Covers(SortedKeys(l.Keys), l) && Render(l) == "{" + Rest(l, SortedKeys(l.Keys))[1..]
    ensures Rest(l, [k] + keys) == "," + k + "=\"" + Escape(l[k]) + "\"" + Rest(l, keys)
  {
    SortedCovers(l);
    assert ([k] + keys)[1..] == keys;
    RestStep(l, [k] + keys, Pair(k, l[k]), Rest(l, keys));
    PairWritten(",", k, l[k]);
    hide Rest, Pair, Escape, SortedKeys;
    var text := "," + k + "=\"" + Escape(l[k]) + "\"";
    assert text == "," + Pair(k, l[k]);
  }

  /** Backslash, quote and newline are escaped, and nothing else is. */
  lemma {:induction false} EscapeSays(a: string, b: string, c: char)
    ensures Escape(a + b) == Escape(a) + Escape(b)
    ensures Escape("\\") == "\\\\" && Escape("\"") == "\\\"" && Escape("\n") == "\\n"
    ensures c !in {'\\', '"', '\n'} ==> Escape([c]) == [c]
  {
    assert forall x: char :: [x][1..] == "" && Escape([x]) == EscapeChar(x) + Escape([x][1..]);
    if a == "" {
      assert a + b == b;
    } else {
      assert (a + b)[0] == a[0] && (a + b)[1..] == a[1..] + b;
      EscapeSays(a[1..], b, c);
    }
  }

  /** The text after the first n pairs. */
  function Front(l: Labels, keys: seq<string>, n: nat): string
    requires n <= |keys| && forall k | k in keys :: k in l
  {
    if n == 0 then "{"
    else Front(l, keys, n - 1) + (if n > 1 then "," else "") + Pair(keys[n - 1], l[keys[n - 1]])
  }

  lemma {:induction false} FrontAndRest(l: Labels, keys: seq<string>, n: nat)
    requires 0 < n <= |keys| && forall k | k in keys :: k in l
    ensures Front(l, keys, n) + Rest(l, keys[n..]) == "{" + Rest(l, keys)[1..]
  {
    hide Pair;
    var k := keys[n - 1];
    var p, after := Pair(k, l[k]), Rest(l, keys[n..]);
    assert keys[n - 1..][1..] == keys[n..] && keys[n - 1..][0] == k;
    RestStep(l, keys[n - 1..], p, after);
    if n == 1 {
      assert keys[0..] == keys;
      FirstPair(p, after);
      assert Front(l, keys, 1) == "{" + "" + p by { assert Front(l, keys, 0) == "{"; }
    } else {
      FrontAndRest(l, keys, n - 1);
      var before := Front(l, keys, n - 1);
      hide Front, Rest;
      assert before + "," + p + after == before + ("," + p + after);
    }
  }

  lemma RestStep(l: Labels, keys: seq<string>, p: string, after: string)
    requires keys != [] && (forall k | k in keys :: k in l)
    requires p == Pair(keys[0], l[keys[0]]) && after == Rest(l, keys[1..])
    ensures Rest(l, keys) == "," + p + after
  {
  }

  lemma FirstPair(p: string, after: string)
    ensures "{" + "" + p + after == "{" + ("," + p + after)[1..]
  {
    assert ("," + p + after)[1..] == p + after;
  }

  method RenderLabels(l: Labels) returns (text: string)
    ensures text == Render(l)
  {
    if |l| == 0 { return ""; }
    var keys := AppendKeys([], l.Keys, {});
    SortedIsCanonical(keys);
    SortedCovers(l);
    keys := Sorted(keys);
    text := RenderPairs(l, keys);
  }

  method RenderPairs(l: Labels, keys: seq<string>) returns (text: string)
    requires keys != [] && Covers(keys, l)
    ensures text == "{" + Rest(l, keys)[1..]
  {
    hide Escape, Rest, Pair;
    text := "{";
    for i := 0 to |keys|
      invariant text == Front(l, keys, i)
    {
      var k := keys[i];
      if i > 0 { text := text + ","; }
      PairWritten(text, k, l[k]);
      text := text + k + "=\"" + Escape(l[k]) + "\"";
    }
    FrontAndRest(l, keys, |keys|);
    NoRest(l);
    assert keys[|keys|..] == [];
    text := text + "}";
  }

  lemma NoRest(l: Labels)
    ensures Rest(l, []) == "}"
  {
  }

  lemma PairWritten(text: string, k: string, v: string)
    ensures text + k + "=\"" + Escape(v) + "\"" == text + Pair(k, v)
  {
    hide Escape;
    assert k + "=\"" + Escape(v) + "\"" == Pair(k, v);
  }

  // ---------------------------------------------------------------- no two label sets alike

  predicate Named(l: Labels) { forall k | k in l :: '=' !in k }

  lemma {:induction false} RestInjective(l: Labels, m: Labels, ks: seq<string>, ms: seq<string>)
    requires (forall k | k in ks :: k in l) && (forall k | k in ms :: k in m)
    requires Named(l) && Named(m) && Rest(l, ks) == Rest(m, ms)
    ensures ks == ms && forall k | k in ks :: l[k] == m[k]
  {
    StartsWithBraceIff(l, ks);
    StartsWithBraceIff(m, ms);
    if ks != [] {
      var a, b := Rest(l, ks[1..]), Rest(m, ms[1..]);
      RestStep(l, ks, Pair(ks[0], l[ks[0]]), a);
      RestStep(m, ms, Pair(ms[0], m[ms[0]]), b);
      hide Rest;
      FirstPairMatches(ks[0], l[ks[0]], a, ms[0], m[ms[0]], b);
      RestInjective(l, m, ks[1..], ms[1..]);
      assert ks == [ks[0]] + ks[1..] && ms == [ms[0]] + ms[1..];
    }
  }

  lemma StartsWithBraceIff(l: Labels, keys: seq<string>)
    requires forall k | k in keys :: k in l
    ensures Rest(l, keys) != "" && (Rest(l, keys)[0] == '}' <==> keys == [])
  {
  }

  lemma FirstPairMatches(k: string, v: string, a: string, n: string, w: string, b: string)
    requires '=' !in k && '=' !in n && "," + Pair(k, v) + a == "," + Pair(n, w) + b
    ensures k == n && v == w && a == b
  {
    assert ("," + Pair(k, v) + a)[1..] == Pair(k, v) + a && ("," + Pair(n, w) + b)[1..] == Pair(n, w) + b;
    SplitPair(k, v, a);
    SplitPair(n, w, b);
    hide Escape, Pair;
    NameEnds(k, n, "\"" + (Escape(v) + "\"" + a), "\"" + (Escape(w) + "\"" + b));
    assert ("\"" + (Escape(v) + "\"" + a))[1..] == Escape(v) + "\"" + a;
    assert ("\"" + (Escape(w) + "\"" + b))[1..] == Escape(w) + "\"" + b;
    EscapedEnds(v, w, a, b);
  }

  lemma SplitPair(k: string, v: string, rest: string)
    ensures Pair(k, v) + rest == k + "=" + ("\"" + (Escape(v) + "\"" + rest))
  {
    hide Escape;
  }

  /** Label sets whose names are identifiers have the same rendering only when they are the same. */
  lemma RenderInjective(l: Labels, m: Labels)
    requires Named(l) && Named(m) && Render(l) == Render(m)
    ensures l == m
  {
    SortedCovers(l);
    SortedCovers(m);
    if l != map[] && m != map[] {
      KeysAlike(l, m, SortedKeys(l.Keys), SortedKeys(m.Keys));
    }
  }

  lemma KeysAlike(l: Labels, m: Labels, ks: seq<string>, ms: seq<string>)
    requires Named(l) && Named(m) && ks != [] && ms != [] && Covers(ks, l) && Covers(ms, m)
    requires ks == SortedKeys(l.Keys) && ms == SortedKeys(m.Keys)
    requires "{" + Rest(l, ks)[1..] == "{" + Rest(m, ms)[1..]
    ensures l == m
  {
    SortedKeysEnumerate(l.Keys);
    SortedKeysEnumerate(m.Keys);
    assert forall k :: (k in ks <==> k in l.Keys) && (k in ms <==> k in m.Keys) by {
      assert forall k :: (k in ks <==> k in Elements(ks)) && (k in ms <==> k in Elements(ms));
    }
    hide SortedKeys, Pair;
    var r, s := Rest(l, ks), Rest(m, ms);
    assert ("{" + r[1..])[1..] == r[1..] && ("{" + s[1..])[1..] == s[1..];
    assert r == "," + r[1..] && s == "," + s[1..];
    RestInjective(l, m, ks, ms);
  }
}

/** A read-only directory tree, and the three ways the validator looks at it:
    prefix globs (`ses-*`, `sub-*`), substring globs (`*bold.nii*`) and the
    existence test `(parent / name).exists()`. The order of a directory's
    children is the order in which the filesystem enumerates them. */
module FileTree {

  datatype Option<T> = None | Some(value: T)

  /** What a file parses to when it is read as JSON: a JSON object carries the
      set of its top-level keys; anything else is not JSON. */
  datatype Meta = NotJson | JsonObject(keys: set<string>)

  /** A directory entry: a directory with its listing, or a plain file. */
  datatype Entry = Dir(name: string, children: seq<Entry>) | File(name: string, meta: Meta)

  /** The listing a glob walks. Globbing below a plain file finds nothing. */
  function Children(e: Entry): seq<Entry>
  {
    if e.Dir? then e.children else []
  }

  predicate StartsWith(s: string, prefix: string)
  {
    prefix <= s
  }

  /** `sub` occurs somewhere in `s`: it is a prefix of `s` or occurs in the
      rest of `s` after its first character. */
  predicate Contains(s: string, sub: string)
  {
    sub <= s || (s != [] && Contains(s[1..], sub))
  }

  /** `sub` starts at position `i` of `s`. */
  predicate OccursAt(s: string, sub: string, i: nat)
  {
    i + |sub| <= |s| && s[i..i + |sub|] == sub
  }

  /** `sub` occurs in `s` when it starts at position `i`. */
  lemma {:induction false} ContainsAt(s: string, sub: string, i: nat)
    requires OccursAt(s, sub, i)
    ensures Contains(s, sub)
  {
    if i > 0 {
      assert s[1..][i - 1..i - 1 + |sub|] == s[i..i + |sub|];
      ContainsAt(s[1..], sub, i - 1);
    } else {
      assert s[..|sub|] == sub;
    }
  }

  /** Conversely, when `sub` occurs in `s` it starts at some position. */
  lemma {:induction false} ContainsPosition(s: string, sub: string)
    requires Contains(s, sub)
    ensures exists i: nat :: OccursAt(s, sub, i)
  {
    if sub <= s {
      assert s[0..|sub|] == sub;
      assert OccursAt(s, sub, 0);
    } else {
      ContainsPosition(s[1..], sub);
      var i: nat :| OccursAt(s[1..], sub, i);
      assert s[i + 1..i + 1 + |sub|] == s[1..][i..i + |sub|];
      assert OccursAt(s, sub, i + 1);
    }
  }

  /** `sub` does not occur in `s` when one of its characters is not in `s`. */
  lemma {:induction false} MissingCharNotContained(s: string, sub: string, c: char)
    requires c in sub && c !in s
    ensures !Contains(s, sub)
  {
    if s != [] {
      MissingCharNotContained(s[1..], sub, c);
    }
    var j :| 0 <= j < |sub| && sub[j] == c;
    if j < |s| {
      assert s[j] in s;
    }
  }

  /** `glob("<prefix>*")`: the entries whose name starts with `prefix`, in
      listing order. */
  function GlobPrefix(es: seq<Entry>, prefix: string): (r: seq<Entry>)
    ensures |r| <= |es|
    ensures forall e | e in r :: e in es && StartsWith(e.name, prefix)
  {
    if es == [] then []
    else (if StartsWith(es[0].name, prefix) then [es[0]] else []) + GlobPrefix(es[1..], prefix)
  }

  /** `glob("*<sub>*")`: the entries whose name contains `sub`, in listing
      order. */
  function GlobContains(es: seq<Entry>, sub: string): (r: seq<Entry>)
    ensures |r| <= |es|
    ensures forall e | e in r :: e in es && Contains(e.name, sub)
  {
    if es == [] then []
    else (if Contains(es[0].name, sub) then [es[0]] else []) + GlobContains(es[1..], sub)
  }

  /** A prefix glob misses no matching entry. */
  lemma {:induction false} GlobPrefixComplete(es: seq<Entry>, prefix: string)
    ensures forall e | e in es && StartsWith(e.name, prefix) :: e in GlobPrefix(es, prefix)
  {
    if es != [] {
      GlobPrefixComplete(es[1..], prefix);
      assert forall e | e in es :: e == es[0] || e in es[1..];
    }
  }

  /** A substring glob misses no matching entry. */
  lemma {:induction false} GlobContainsComplete(es: seq<Entry>, sub: string)
    ensures forall e | e in es && Contains(e.name, sub) :: e in GlobContains(es, sub)
  {
    if es != [] {
      GlobContainsComplete(es[1..], sub);
      assert forall e | e in es :: e == es[0] || e in es[1..];
    }
  }

  /** A prefix glob over two listings laid end to end is the glob over the
      first followed by the glob over the second. */
  lemma {:induction false} GlobPrefixAppend(a: seq<Entry>, b: seq<Entry>, prefix: string)
    ensures GlobPrefix(a + b, prefix) == GlobPrefix(a, prefix) + GlobPrefix(b, prefix)
  {
    if a == [] {
      assert a + b == b;
    } else {
      assert (a + b)[0] == a[0] && (a + b)[1..] == a[1..] + b;
      GlobPrefixAppend(a[1..], b, prefix);
    }
  }

  /** A matching entry keeps its place: the prefix glob yields the matches
      before position `k`, then the entry at `k`, then the matches after it,
      so the glob follows listing order. */
  lemma GlobPrefixAt(es: seq<Entry>, prefix: string, k: nat)
    requires k < |es| && StartsWith(es[k].name, prefix)
    ensures GlobPrefix(es, prefix)
         == GlobPrefix(es[..k], prefix) + [es[k]] + GlobPrefix(es[k + 1..], prefix)
  {
    assert es == es[..k] + ([es[k]] + es[k + 1..]);
    GlobPrefixAppend(es[..k], [es[k]] + es[k + 1..], prefix);
    GlobPrefixAppend([es[k]], es[k + 1..], prefix);
    assert [es[k]][1..] == [];
  }

  /** A substring glob over two listings laid end to end is the glob over the
      first followed by the glob over the second. */
  lemma {:induction false} GlobContainsAppend(a: seq<Entry>, b: seq<Entry>, sub: string)
    ensures GlobContains(a + b, sub) == GlobContains(a, sub) + GlobContains(b, sub)
  {
    if a == [] {
      assert a + b == b;
    } else {
      assert (a + b)[0] == a[0] && (a + b)[1..] == a[1..] + b;
      GlobContainsAppend(a[1..], b, sub);
    }
  }

  /** A matching entry keeps its place: the substring glob yields the matches
      before position `k`, then the entry at `k`, then the matches after it,
      so the glob follows listing order. */
  lemma GlobContainsAt(es: seq<Entry>, sub: string, k: nat)
    requires k < |es| && Contains(es[k].name, sub)
    ensures GlobContains(es, sub)
         == GlobContains(es[..k], sub) + [es[k]] + GlobContains(es[k + 1..], sub)
  {
    assert es == es[..k] + ([es[k]] + es[k + 1..]);
    GlobContainsAppend(es[..k], [es[k]] + es[k + 1..], sub);
    GlobContainsAppend([es[k]], es[k + 1..], sub);
    assert [es[k]][1..] == [];
  }

  /** A prefix glob comes back empty exactly when no entry matches. */
  lemma GlobPrefixEmptyIff(es: seq<Entry>, prefix: string)
    ensures GlobPrefix(es, prefix) == [] <==> forall e | e in es :: !StartsWith(e.name, prefix)
  {
    GlobPrefixComplete(es, prefix);
    var r := GlobPrefix(es, prefix);
    if r != [] {
      assert r[0] in r;
    }
  }

  /** `any(glob("*<sub>*"))`: some entry's name contains `sub`. */
  predicate AnyContains(es: seq<Entry>, sub: string)
  {
    exists e | e in es :: Contains(e.name, sub)
  }

  /** A substring glob comes back empty exactly when no entry matches. */
  lemma GlobContainsEmptyIff(es: seq<Entry>, sub: string)
    ensures GlobContains(es, sub) == [] <==> !AnyContains(es, sub)
  {
    GlobContainsComplete(es, sub);
    var r := GlobContains(es, sub);
    if r != [] {
      assert r[0] in r;
    }
  }

  /** `(parent / name)`: the entry called `name` in a listing, if there is one.
      A real directory has at most one; the first is taken. */
  function Lookup(es: seq<Entry>, name: string): (r: Option<Entry>)
    ensures r.Some? ==> r.value.name == name
  {
    if es == [] then None
    else if es[0].name == name then Some(es[0])
    else Lookup(es[1..], name)
  }

  /** `exists()` holds exactly when some entry of the listing, a file or a
      directory, has the name; the entry found is the first such. */
  lemma {:induction false} LookupFinds(es: seq<Entry>, name: string)
    ensures Lookup(es, name).Some? <==> exists e :: e in es && e.name == name
    ensures Lookup(es, name).Some? ==>
      exists k | 0 <= k < |es| :: es[k] == Lookup(es, name).value
        && forall j | 0 <= j < k :: es[j].name != name
  {
    if es != [] && es[0].name != name {
      LookupFinds(es[1..], name);
      if Lookup(es, name).Some? {
        var k :| 0 <= k < |es[1..]| && es[1..][k] == Lookup(es, name).value
          && forall j | 0 <= j < k :: es[1..][j].name != name;
        assert es[k + 1] == Lookup(es, name).value;
        assert forall j | 0 <= j < k + 1 :: es[j].name != name by {
          forall j | 0 <= j < k + 1 ensures es[j].name != name {
            if j > 0 { assert es[j] == es[1..][j - 1]; }
          }
        }
      }
      assert forall e :: e in es && e.name == name ==> e in es[1..] by {
        forall e | e in es && e.name == name ensures e in es[1..] {
          var i :| 0 <= i < |es| && es[i] == e;
          assert i != 0;
          assert es[1..][i - 1] == e;
        }
      }
    }
  }
}

// What normalising does to paths, in terms of paths alone.
module PathLaws {
  import opened Base
  import opened PathNormalizer

  predicate IsAbsolute(path: string) {
    path != "" && path[0] == '/'
  }

  // -- Walking over joined paths --------------------------------------------------------------

  lemma TokensFirst(c: string, rest: string)
    requires '/' !in c
    ensures Tokens(c + "/" + rest) == [c] + Tokens(rest)
  {
    var all := c + "/" + rest;
    assert forall i :: 0 <= i < |c| ==> all[i] == c[i] && c[i] in c;
    FirstSlashIs(all, |c|);
    assert all[..|c|] == c && all[|c| + 1..] == rest;
  }

  lemma OnlyToken(a: string)
    requires a != "" && '/' !in a
    ensures Tokens(a) == [a]
  {
    TokensOfComponent(a);
  }

  lemma WalkFirst(p: Place, c: string, rest: string)
    requires IsAbsolute(p.root) && '/' !in c
    ensures Walk(p, Tokens(c + "/" + rest)) == Walk(Visit(p, c), Tokens(rest))
  {
    TokensFirst(c, rest);
    assert ([c] + Tokens(rest))[1..] == Tokens(rest);
  }

  /** Walking over two paths joined by a slash is walking over one and then the other. */
  lemma {:induction false} WalkJoin(p: Place, a: string, b: string)
    requires IsAbsolute(p.root)
    ensures Walk(p, Tokens(a + "/" + b)) == Walk(Walk(p, Tokens(a)), Tokens(b))
    decreases |a|
  {
    var k := FirstSlash(a);
    if a == "" {
      WalkFirst(p, "", b);
      assert Walk(p, Tokens("")) == p;
    } else if k == |a| {
      assert forall i :: 0 <= i < |a| ==> a[i] != '/';
      WalkFirst(p, a, b);
      OnlyToken(a);
      assert Walk(p, [a]) == Visit(p, a);
    } else {
      var c, rest := a[..k], a[k + 1..];
      assert a == c + "/" + rest && a + "/" + b == c + "/" + (rest + "/" + b);
      WalkFirst(p, c, rest);
      WalkFirst(p, c, rest + "/" + b);
      WalkJoin(Visit(p, c), rest, b);
    }
  }

  /** Where the components of an absolute path start does not depend on what follows its
      second octet, if that is not a slash that may belong to a root. */
  lemma SameStart(p: string, a: string, b: string)
    requires IsAbsolute(p) && |p| >= 2
    ensures StartOf(p + "/" + a) == StartOf(p + "/" + b) && StartOf(p + "/" + a).1 <= |p|
    ensures var i := StartOf(p + "/" + a).1; (p + "/" + a)[i..] == p[i..] + "/" + a
  {
  }

  lemma ResolveJoined(p: string, a: string)
    requires IsAbsolute(p) && |p| >= 2
    ensures IsAbsolute(p + "/" + a)
    ensures var (root, i) := StartOf(p + "/" + a);
            i <= |p| && Resolve(p + "/" + a) == Walk(Walk(root, Tokens(p[i..])), Tokens(a))
  {
    SameStart(p, a, a);
    var (root, i) := StartOf(p + "/" + a);
    WalkJoin(root, p[i..], a);
  }

  // -- The parent directory ------------------------------------------------------------------------

  lemma DownAndUp(w: Place, c: string, q: string)
    requires IsAbsolute(w.root) && Ordinary(c)
    ensures Walk(w, Tokens(c + "/../" + q)) == Walk(w, Tokens(q))
  {
    Grouped(c, q);
    WalkFirst(w, c, ".." + "/" + q);
    WalkFirst(Visit(w, c), "..", q);
    PushAndPop(w, c);
  }

  lemma Grouped(c: string, q: string)
    ensures c + "/../" + q == c + "/" + (".." + "/" + q)
  {
    assert "/../" == "/" + ".." + "/";
  }

  lemma PushAndPop(w: Place, c: string)
    requires IsAbsolute(w.root) && Ordinary(c)
    ensures Visit(Visit(w, c), "..") == w
  {
    assert (w.stack + [c])[..|w.stack|] == w.stack;
  }

  /** The rest does not begin a new root. */
  predicate Relative(q: string) {
    q == "" || q[0] != '/'
  }

  /** A component followed by ".." is nothing, wherever it stands. */
  lemma ParentUndoesComponent(p: string, c: string, q: string)
    requires (p == "" || p[0] == '/') && Ordinary(c) && (|p| <= 1 ==> Relative(q))
    ensures IsAbsolute(p + "/" + (c + "/../" + q)) && IsAbsolute(p + "/" + q)
    ensures Normalize(p + "/" + (c + "/../" + q)) == Normalize(p + "/" + q)
  {
    var x := c + "/../" + q;
    if |p| >= 2 {
      SameStart(p, x, q);
      ResolveJoined(p, x);
      ResolveJoined(p, q);
      var (root, i) := StartOf(p + "/" + x);
      DownAndUp(Walk(root, Tokens(p[i..])), c, q);
    } else {
      ShortParent(p, c, q);
    }
  }

  lemma ShortParent(p: string, c: string, q: string)
    requires (p == "" || p == "/") && Ordinary(c) && Relative(q)
    ensures Resolve(p + "/" + (c + "/../" + q)) == Resolve(p + "/" + q)
  {
    var x, root := c + "/../" + q, p + "/";
    assert c[0] in c && x[0] == c[0];
    assert root == if p == "" then "/" else "//";
    ResolveUnder(root, x);
    ResolveUnder(root, q);
    DownAndUp(Place(root, []), c, q);
  }

  lemma StartOfRoot(p: string, x: string)
    requires (p == "" || p == "/") && Relative(x)
    ensures StartOf(p + "/" + x) == (Place(p + "/", []), |p| + 1)
  {
    var s := p + "/" + x;
    assert x != "" ==> s[|p| + 1] == x[0];
    assert p + "/" == if p == "" then "/" else "//";
  }

  /** From either root, ".." leads to the single root. */
  lemma ParentOfRoot(q: string)
    requires Relative(q)
    ensures Normalize("/" + ("../" + q)) == Normalize("/" + q) == Normalize("//" + ("../" + q))
  {
    UpFromRoot("/", q);
    UpFromRoot("//", q);
    ResolveUnder("/", q);
  }

  lemma UpFromRoot(root: string, q: string)
    requires root == "/" || root == "//"
    ensures IsAbsolute(root + ("../" + q))
    ensures Resolve(root + ("../" + q)) == Walk(Place("/", []), Tokens(q))
  {
    var x := ".." + "/" + q;
    assert "../" + q == x && x[0] == '.';
    ResolveUnder(root, x);
    WalkFirst(Place(root, []), "..", q);
    RootsHaveOneParent();
  }

  lemma RootsHaveOneParent()
    ensures Up(Place("/", [])) == Place("/", []) == Up(Place("//", []))
  {
    assert "//"[..1] == "/";
  }

  lemma ResolveUnder(root: string, x: string)
    requires (root == "/" || root == "//") && Relative(x)
    ensures IsAbsolute(root + x) && Resolve(root + x) == Walk(Place(root, []), Tokens(x))
  {
    var p := if root == "/" then "" else "/";
    assert p + "/" == root;
    StartOfRoot(p, x);
    assert (root + x)[|root|..] == x;
  }

  // -- Components that mean nothing ---------------------------------------------------------------------

  predicate NoTrailingSlash(p: string) {
    p != "" && p[|p| - 1] != '/'
  }

  /** "." and empty components are nothing. */
  lemma DotsAndSlashesVanish(p: string, q: string)
    requires IsAbsolute(p) && NoTrailingSlash(p)
    ensures IsAbsolute(p + "/" + q) && IsAbsolute(p + "/" + ("./" + q)) && IsAbsolute(p + "/" + ("/" + q))
    ensures Normalize(p + "/" + ("./" + q)) == Normalize(p + "/" + q) == Normalize(p + "/" + ("/" + q))
  {
    assert "." + "/" + q == "./" + q && "" + "/" + q == "/" + q;
    Vanishes(p, ".", q);
    Vanishes(p, "", q);
  }

  lemma Vanishes(p: string, c: string, q: string)
    requires IsAbsolute(p) && |p| >= 2 && (c == "" || c == ".")
    ensures IsAbsolute(p + "/" + q) && IsAbsolute(p + "/" + (c + "/" + q))
    ensures Normalize(p + "/" + (c + "/" + q)) == Normalize(p + "/" + q)
  {
    SameStart(p, c + "/" + q, q);
    ResolveJoined(p, q);
    ResolveJoined(p, c + "/" + q);
    var (root, i) := StartOf(p + "/" + q);
    WalkFirst(Walk(root, Tokens(p[i..])), c, q);
  }

  /** A trailing slash is nothing. */
  lemma TrailingSlashVanishes(p: string)
    requires IsAbsolute(p) && NoTrailingSlash(p)
    ensures IsAbsolute(p + "/") && Normalize(p + "/") == Normalize(p)
  {
    ResolveJoined(p, "");
    assert p + "/" + "" == p + "/";
    assert StartOf(p + "/") == StartOf(p);
    assert Tokens("") == [];
  }

  /** A path of ordinary components under either root is its own normal form. */
  lemma OrdinaryIsNormal(root: string, components: seq<string>)
    requires root == "/" || root == "//"
    requires components != [] && forall i :: 0 <= i < |components| ==> Ordinary(components[i])
    ensures IsAbsolute(root + Joined(components))
    ensures Normalize(root + Joined(components)) == root + Joined(components)
  {
    var p := Place(root, components);
    RenderIsRootAndJoined(p);
    ResolveUndoesRender(p);
  }

  /** Both roots are the single root when nothing follows. */
  lemma RootIsNormal()
    ensures Normalize("/") == "/" == Normalize("//")
  {
    assert "/"[1..] == "" && "//"[2..] == "" && Tokens("") == [];
    assert "//"[..1] == "/";
  }
}

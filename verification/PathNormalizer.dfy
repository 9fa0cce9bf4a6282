// RealPathNotExpandSymlink with existence checks off: a character-level loop that
// keeps a `resolved` string, against a machine with a root and a component stack.
module PathNormalizer {
  import opened Base

  // -- The machine ------------------------------------------------------------------

  /** Where the loop stands: a stack of components on a root that ends in a slash. */
  datatype Place = Place(root: string, stack: seq<string>)

  predicate Component(c: string) {
    c != "" && '/' !in c
  }

  /** What any absolute starting point gives. */
  predicate Grounded(p: Place) {
    && p.root != "" && p.root[0] == '/' && p.root[|p.root| - 1] == '/'
    && forall i :: 0 <= i < |p.stack| ==> Component(p.stack[i])
  }

  predicate Ordinary(c: string) {
    c != "" && c != "." && c != ".." && '/' !in c
  }

  /** What an absolute path gives: the root is "/" or "//". */
  predicate Good(p: Place) {
    (p.root == "/" || p.root == "//") && forall i :: 0 <= i < |p.stack| ==> Ordinary(p.stack[i])
  }

  /** A place that a normal form can name: a double root needs a component. */
  predicate Canonical(p: Place) {
    Good(p) && (p.stack == [] ==> p.root == "/")
  }

  /** rfind: the last slash at or before position k, or -1. */
  function SlashAtOrBefore(s: string, k: int): (r: int)
    requires -1 <= k < |s|
    ensures -1 <= r <= k && (r >= 0 ==> s[r] == '/')
    ensures forall i :: r < i <= k ==> s[i] != '/'
    decreases k + 1
  {
    if k < 0 || s[k] == '/' then k else SlashAtOrBefore(s, k - 1)
  }

  /** The root one level up; both "/" and "//" lead to "/". */
  function Parent(root: string): (r: string)
    requires root != ""
  {
    if |root| == 1 then root else root[..SlashAtOrBefore(root, |root| - 2) + 1]
  }

  function Up(p: Place): (r: Place)
    requires p.root != ""
    ensures p.root[0] == '/' ==> r.root != "" && r.root[0] == '/'
  {
    if p.stack == [] then Place(Parent(p.root), []) else p.(stack := p.stack[..|p.stack| - 1])
  }

  function Visit(p: Place, token: string): (r: Place)
    requires p.root != "" && p.root[0] == '/'
    ensures r.root != "" && r.root[0] == '/'
  {
    if token == "" || token == "." then p
    else if token == ".." then Up(p)
    else p.(stack := p.stack + [token])
  }

  function Walk(p: Place, tokens: seq<string>): (r: Place)
    requires p.root != "" && p.root[0] == '/'
    ensures r.root != "" && r.root[0] == '/'
    decreases |tokens|
  {
    if tokens == [] then p else Walk(Visit(p, tokens[0]), tokens[1..])
  }

  /** The pieces between slashes; a trailing slash ends the last piece. */
  function Tokens(s: string): (r: seq<string>) {
    if s == "" then []
    else
      var k := FirstSlash(s);
      [s[..k]] + if k < |s| then Tokens(s[k + 1..]) else []
  }

  // -- Rendering ----------------------------------------------------------------------

  /** Root and components, every component followed by a slash. */
  function Slashed(p: Place): (r: string)
    decreases |p.stack|
  {
    if p.stack == [] then p.root
    else Slashed(p.(stack := p.stack[..|p.stack| - 1])) + p.stack[|p.stack| - 1] + "/"
  }

  /** The result: no trailing slash unless the path is "/". */
  function Render(p: Place): (r: string) {
    if p.stack == [] then (if |p.root| > 1 then p.root[..|p.root| - 1] else p.root)
    else Slashed(p.(stack := p.stack[..|p.stack| - 1])) + p.stack[|p.stack| - 1]
  }

  function StartOf(path: string): (r: (Place, nat))
    requires path != "" && path[0] == '/'
  {
    if |path| >= 2 && path[1] == '/' && (|path| == 2 || path[2] != '/') then (Place("//", []), 2)
    else (Place("/", []), 1)
  }

  /** What an absolute path names. */
  function Resolve(path: string): (r: Place)
    requires path != "" && path[0] == '/'
  {
    var (p, i) := StartOf(path);
    Walk(p, Tokens(path[i..]))
  }

  function Normalize(path: string): (r: string)
    requires path != "" && path[0] == '/'
  {
    Render(Resolve(path))
  }

  // -- The loop -----------------------------------------------------------------------

  lemma SlashedShape(p: Place)
    requires Grounded(p)
    ensures Slashed(p) != "" && Slashed(p)[0] == '/' && Slashed(p)[|Slashed(p)| - 1] == '/'
    ensures |Slashed(p)| == 1 ==> p == Place("/", [])
    decreases |p.stack|
  {
    if p.stack != [] {
      SlashedShape(p.(stack := p.stack[..|p.stack| - 1]));
    }
  }

  /** Whether `resolved` stands for p, with or without its trailing slash. */
  ghost predicate Stands(resolved: string, p: Place) {
    resolved == Slashed(p) || (p.stack != [] && resolved == Render(p))
  }

  lemma RenderPlusSlash(p: Place)
    requires p.stack != []
    ensures Render(p) + "/" == Slashed(p)
  {
  }

  lemma RenderEndsInComponent(p: Place)
    requires Grounded(p) && p.stack != []
    ensures Render(p) != "" && Render(p)[|Render(p)| - 1] != '/'
  {
    var c := p.stack[|p.stack| - 1];
    assert Component(c) && c[|c| - 1] in c;
  }

  /** rfind('/', from). */
  method LastSlash(s: string, from: int) returns (k: int)
    requires -1 <= from < |s|
    ensures k == SlashAtOrBefore(s, from)
  {
    k := from;
    while k >= 0 && s[k] != '/'
      invariant -1 <= k <= from
      invariant SlashAtOrBefore(s, k) == SlashAtOrBefore(s, from)
      decreases k
    {
      k := k - 1;
    }
  }

  lemma SlashIs(s: string, from: int, k: int)
    requires 0 <= k <= from < |s| && s[k] == '/' && forall i :: k < i <= from ==> s[i] != '/'
    ensures SlashAtOrBefore(s, from) == k
  {
  }

  lemma CutComponent(front: string, c: string)
    requires front != "" && front[|front| - 1] == '/' && Component(c)
    ensures var all := front + c + "/";
            SlashAtOrBefore(all, |all| - 2) == |front| - 1 && all[..|front|] == front
  {
    var all := front + c + "/";
    forall i | |front| <= i < |front| + |c| ensures all[i] != '/' {
      assert all[i] == c[i - |front|] && c[i - |front|] in c;
    }
    SlashIs(all, |all| - 2, |front| - 1);
  }

  /** Cutting after the last-but-one slash removes the last component, or goes up from
      the root. */
  lemma CutIsUp(p: Place)
    requires Grounded(p) && |Slashed(p)| > 1
    ensures var k := SlashAtOrBefore(Slashed(p), |Slashed(p)| - 2);
            k >= 0 && Slashed(p)[..k + 1] == Slashed(Up(p)) && Grounded(Up(p))
  {
    if p.stack != [] {
      assert Component(p.stack[|p.stack| - 1]);
      SlashedShape(Up(p));
      CutComponent(Slashed(Up(p)), p.stack[|p.stack| - 1]);
    } else {
      assert p.root[0] == '/';
    }
  }

  lemma PushStands(p: Place, token: string)
    requires Grounded(p) && Component(token)
    ensures Stands(Slashed(p) + token, p.(stack := p.stack + [token])) && Grounded(p.(stack := p.stack + [token]))
  {
    var q := p.(stack := p.stack + [token]);
    assert q.stack[..|q.stack| - 1] == p.stack;
  }

  /** One turn of the loop after the separating slash has been supplied. */
  method TakeToken(slashed: string, token: string, ghost p: Place) returns (resolved: string)
    requires Grounded(p) && slashed == Slashed(p) && '/' !in token
    ensures Grounded(Visit(p, token)) && Stands(resolved, Visit(p, token))
  {
    resolved := slashed;
    if token == "" || token == "." {
      return;
    }
    if token == ".." {
      SlashedShape(p);
      if |resolved| > 1 {
        CutIsUp(p);
        var k := LastSlash(resolved, |resolved| - 2);
        resolved := resolved[..k + 1];
      }
      return;
    }
    PushStands(p, token);
    resolved := resolved + token;
  }

  method SupplySlash(resolved: string, ghost p: Place) returns (r: string)
    requires Grounded(p) && Stands(resolved, p)
    ensures r == Slashed(p)
  {
    r := resolved;
    SlashedShape(p);
    if p.stack != [] {
      RenderPlusSlash(p);
      RenderEndsInComponent(p);
    }
    if r[|r| - 1] != '/' {
      r := r + "/";
    }
  }

  method DropTrailingSlash(resolved: string, ghost p: Place) returns (r: string)
    requires Grounded(p) && Stands(resolved, p)
    ensures r == Render(p)
  {
    r := resolved;
    SlashedShape(p);
    if p.stack != [] {
      RenderPlusSlash(p);
      RenderEndsInComponent(p);
    }
    if |r| > 1 && r[|r| - 1] == '/' {
      r := r[..|r| - 1];
    }
  }

  /** What is left of the path at position i; the last token may end one past it. */
  function Rest(path: string, i: nat): string {
    if i <= |path| then path[i..] else ""
  }

  lemma WalkToken(p: Place, path: string, i: nat, j: nat)
    requires p.root != "" && p.root[0] == '/' && i < |path| && j == i + FirstSlash(path[i..])
    ensures Walk(p, Tokens(Rest(path, i))) == Walk(Visit(p, path[i..j]), Tokens(Rest(path, j + 1)))
    ensures '/' !in path[i..j]
  {
    var rest := path[i..];
    assert rest[..j - i] == path[i..j];
    assert Tokens(rest) == [path[i..j]] + Tokens(Rest(path, j + 1)) by {
      if j < |path| { assert rest[j - i + 1..] == path[j + 1..]; } else { assert Tokens("") == []; }
    }
  }

  method FindSlash(path: string, from: nat) returns (j: nat)
    requires from <= |path|
    ensures j == from + FirstSlash(path[from..]) <= |path|
  {
    j := from;
    while j < |path| && path[j] != '/'
      invariant from <= j <= |path|
      invariant from + FirstSlash(path[from..]) == j + FirstSlash(path[j..])
    {
      assert path[j..][1..] == path[j + 1..];
      j := j + 1;
    }
  }

  /** One turn of the loop: the token at position i and where the next one starts. */
  method Turn(path: string, i: nat, resolved: string, ghost here: Place) returns (resolved': string, next: nat, ghost there: Place)
    requires i < |path| && Grounded(here) && Stands(resolved, here)
    ensures Grounded(there) && Stands(resolved', there) && i < next
    ensures Walk(there, Tokens(Rest(path, next))) == Walk(here, Tokens(Rest(path, i)))
  {
    var j := FindSlash(path, i);
    var token := path[i..j];
    WalkToken(here, path, i, j);
    next := j + 1;
    there := Visit(here, token);
    resolved' := SupplySlash(resolved, here);
    resolved' := TakeToken(resolved', token, here);
  }

  /** The loop over the path from position `from`, starting at place p. */
  method Resolved(path: string, from: nat, start: string, ghost p: Place) returns (r: string)
    requires Grounded(p) && Stands(start, p) && from <= |path|
    ensures r == Render(Walk(p, Tokens(path[from..])))
  {
    var resolved := start;
    var i := from;
    ghost var here := p;
    ghost var goal := Walk(p, Tokens(path[from..]));
    while i < |path|
      invariant Grounded(here) && Stands(resolved, here)
      invariant Walk(here, Tokens(Rest(path, i))) == goal
      decreases |path| - i
    {
      resolved, i, here := Turn(path, i, resolved, here);
    }
    assert Rest(path, i) == "" && Tokens("") == [];
    r := DropTrailingSlash(resolved, here);
  }

  /** Where a relative path starts: at the working directory, taken as it is. */
  function PlaceOf(cwd: string): (r: Place)
    requires cwd != "" && cwd[0] == '/'
    ensures r.root != "" && r.root[0] == '/'
  {
    var k := SlashAtOrBefore(cwd, |cwd| - 1);
    if k == |cwd| - 1 then Place(cwd, []) else Place(cwd[..k + 1], [cwd[k + 1..]])
  }

  lemma StartsAtCwd(cwd: string)
    requires cwd != "" && cwd[0] == '/'
    ensures Grounded(PlaceOf(cwd)) && Stands(cwd, PlaceOf(cwd))
  {
    var k := SlashAtOrBefore(cwd, |cwd| - 1);
    assert k >= 0;
    if k < |cwd| - 1 {
      assert cwd[..k + 1] + cwd[k + 1..] == cwd;
      assert PlaceOf(cwd).stack[..0] == [];
    }
  }

  /** RealPathNotExpandSymlink(path, false). `cwd` is what getcwd reports: an absolute
      path name, or nothing if it fails; a relative path starts from there. */
  method RealPath(path: string, cwd: string) returns (r: Option<string>)
    requires cwd != "" ==> cwd[0] == '/'
    ensures path == "" || path[0] == '\0' ==> r == None
    ensures path != "" && path[0] == '/' ==> r == Some(Normalize(path))
    ensures path != "" && path[0] != '\0' && path[0] != '/' ==>
              r == if cwd == "" then None else Some(Render(Walk(PlaceOf(cwd), Tokens(path))))
  {
    if path == "" {
      return None;
    }
    if path[0] == '\0' {
      return None;
    }
    if |path| >= 2 && path[0] == '/' && path[1] == '/' && (|path| == 2 || path[2] != '/') {
      var s := Resolved(path, 2, "//", Place("//", []));
      return Some(s);
    } else if path[0] == '/' {
      var s := Resolved(path, 1, "/", Place("/", []));
      return Some(s);
    } else {
      if cwd == "" {
        return None;
      }
      assert path[0..] == path;
      StartsAtCwd(cwd);
      var s := Resolved(path, 0, cwd, PlaceOf(cwd));
      return Some(s);
    }
  }

  // -- Normal forms --------------------------------------------------------------------

  lemma {:induction false} WalkKeepsGood(p: Place, tokens: seq<string>)
    requires Good(p) && forall i :: 0 <= i < |tokens| ==> '/' !in tokens[i]
    ensures Good(Walk(p, tokens))
    decreases |tokens|
  {
    if tokens != [] {
      WalkKeepsGood(Visit(p, tokens[0]), tokens[1..]);
    }
  }

  lemma {:induction false} TokensHaveNoSlash(s: string)
    ensures forall i :: 0 <= i < |Tokens(s)| ==> '/' !in Tokens(s)[i]
    decreases |s|
  {
    if s != "" && FirstSlash(s) < |s| {
      TokensHaveNoSlash(s[FirstSlash(s) + 1..]);
    }
  }

  lemma FirstSlashIs(s: string, k: nat)
    requires k <= |s| && (forall i :: 0 <= i < k ==> s[i] != '/') && (k < |s| ==> s[k] == '/')
    ensures FirstSlash(s) == k
  {
  }

  /** Components joined by slashes. */
  function Joined(stack: seq<string>): (r: string) {
    if stack == [] then ""
    else if |stack| == 1 then stack[0]
    else stack[0] + "/" + Joined(stack[1..])
  }

  lemma {:induction false} TokensOfJoined(stack: seq<string>)
    requires forall i :: 0 <= i < |stack| ==> Ordinary(stack[i])
    ensures Tokens(Joined(stack)) == stack
  {
    if stack != [] {
      assert Ordinary(stack[0]);
      if |stack| == 1 {
        TokensOfComponent(stack[0]);
      } else {
        TokensOfJoined(stack[1..]);
        TokensCons(stack[0], Joined(stack[1..]));
      }
    }
  }

  lemma {:induction false} WalkOrdinary(p: Place, tokens: seq<string>)
    requires p.root != "" && p.root[0] == '/'
    requires forall i :: 0 <= i < |tokens| ==> Ordinary(tokens[i])
    ensures Walk(p, tokens) == p.(stack := p.stack + tokens)
    decreases |tokens|
  {
    if tokens != [] {
      assert Ordinary(tokens[0]);
      WalkOrdinary(Visit(p, tokens[0]), tokens[1..]);
      assert p.stack + [tokens[0]] + tokens[1..] == p.stack + tokens;
    } else {
      assert p.stack + tokens == p.stack;
    }
  }

  lemma {:induction false} JoinedSnoc(stack: seq<string>, c: string)
    requires stack != []
    ensures Joined(stack + [c]) == Joined(stack) + "/" + c
  {
    assert (stack + [c])[1..] == stack[1..] + [c];
    if |stack| == 1 {
      assert stack + [c] == [stack[0], c];
      assert Joined([c]) == c;
    } else {
      JoinedSnoc(stack[1..], c);
    }
  }

  lemma {:induction false} RenderIsRootAndJoined(p: Place)
    requires p.stack != []
    ensures Render(p) == p.root + Joined(p.stack)
    decreases |p.stack|
  {
    var front, c := p.stack[..|p.stack| - 1], p.stack[|p.stack| - 1];
    assert p.stack == front + [c];
    if front == [] {
      assert p.stack == [c];
    } else {
      RenderIsRootAndJoined(p.(stack := front));
      RenderPlusSlash(p.(stack := front));
      JoinedSnoc(front, c);
    }
  }

  /** A rendered place names that very place. */
  lemma ResolveUndoesRender(p: Place)
    requires Canonical(p)
    ensures Render(p) != "" && Render(p)[0] == '/' && Resolve(Render(p)) == p
  {
    if p.stack == [] {
      assert "/"[1..] == "" && Tokens("") == [];
    } else {
      RenderIsRootAndJoined(p);
      var path := Render(p);
      var joined := Joined(p.stack);
      assert Ordinary(p.stack[0]);
      assert joined != "" && joined[0] == p.stack[0][0] && p.stack[0][0] in p.stack[0];
      assert path[|p.root|..] == joined;
      assert StartOf(path) == (Place(p.root, []), |p.root|);
      TokensOfJoined(p.stack);
      WalkOrdinary(Place(p.root, []), p.stack);
      assert [] + p.stack == p.stack;
    }
  }

  function Canon(p: Place): (r: Place) {
    if p.stack == [] then Place("/", []) else p
  }

  /** Beyond an optional leading double slash, the result is "/" or ordinary
      components (none empty, "." or "..") joined by single slashes, and
      normalising it again changes nothing. */
  lemma NormalizeIsIdempotent(path: string)
    requires path != "" && path[0] == '/'
    ensures var n := Normalize(path);
            && n != "" && n[0] == '/'
            && Normalize(n) == n
            && Canonical(Canon(Resolve(path)))
            && (n == "/" || n == Resolve(path).root + Joined(Resolve(path).stack))
  {
    var (p0, i) := StartOf(path);
    TokensHaveNoSlash(path[i..]);
    WalkKeepsGood(p0, Tokens(path[i..]));
    var p := Resolve(path);
    assert Good(p);
    ResolveUndoesRender(Canon(p));
    assert Render(Canon(p)) == Render(p) by {
      if p.root == "//" { assert p.root[..1] == "/"; }
    }
    if p.stack != [] {
      RenderIsRootAndJoined(p);
    }
  }

  // -- Relative paths --------------------------------------------------------------------

  /** Two places with the same string stay together. */
  ghost predicate Alike(p: Place, q: Place) {
    Grounded(p) && Grounded(q) && Slashed(p) == Slashed(q)
  }

  lemma AlikeRender(p: Place, q: Place)
    requires Alike(p, q)
    ensures Render(p) == Render(q)
  {
    RenderFromSlashed(p);
    RenderFromSlashed(q);
  }

  lemma RenderFromSlashed(p: Place)
    requires Grounded(p)
    ensures Render(p) == if |Slashed(p)| > 1 then Slashed(p)[..|Slashed(p)| - 1] else Slashed(p)
  {
    SlashedShape(p);
    if p.stack != [] {
      RenderPlusSlash(p);
    }
  }

  /** Going up depends on the string alone. */
  lemma UpIsParent(p: Place)
    requires Grounded(p)
    ensures Slashed(p) != "" && Grounded(Up(p)) && Slashed(Up(p)) == Parent(Slashed(p))
  {
    SlashedShape(p);
    if |Slashed(p)| > 1 {
      CutIsUp(p);
    }
  }

  lemma AlikeVisit(p: Place, q: Place, token: string)
    requires Alike(p, q) && '/' !in token
    ensures Alike(Visit(p, token), Visit(q, token))
  {
    if token == ".." {
      UpIsParent(p);
      UpIsParent(q);
    } else if token != "" && token != "." {
      PushSlashed(p, token);
      PushSlashed(q, token);
    }
  }

  lemma PushSlashed(p: Place, token: string)
    requires Grounded(p) && Component(token)
    ensures var q := p.(stack := p.stack + [token]); Grounded(q) && Slashed(q) == Slashed(p) + token + "/"
  {
    PushStands(p, token);
    assert (p.stack + [token])[..|p.stack|] == p.stack;
  }

  lemma {:induction false} AlikeWalk(p: Place, q: Place, tokens: seq<string>)
    requires Alike(p, q) && forall i :: 0 <= i < |tokens| ==> '/' !in tokens[i]
    ensures Alike(Walk(p, tokens), Walk(q, tokens))
    decreases |tokens|
  {
    if tokens != [] {
      AlikeVisit(p, q, tokens[0]);
      AlikeWalk(Visit(p, tokens[0]), Visit(q, tokens[0]), tokens[1..]);
    }
  }

  lemma CwdIsPlace(at: Place)
    requires Canonical(at)
    ensures Render(at) != "" && Render(at)[0] == '/' && Alike(PlaceOf(Render(at)), at)
  {
    ResolveUndoesRender(at);
    var cwd := Render(at);
    StartsAtCwd(cwd);
    if at.stack != [] {
      RenderEndsInComponent(at);
      RenderPlusSlash(at);
      assert PlaceOf(cwd).stack != [];
      RenderPlusSlash(PlaceOf(cwd));
      RenderOfPlaceOf(cwd);
    }
  }

  lemma RenderOfPlaceOf(cwd: string)
    requires cwd != "" && cwd[0] == '/' && cwd[|cwd| - 1] != '/'
    ensures Render(PlaceOf(cwd)) == cwd
  {
    var k := SlashAtOrBefore(cwd, |cwd| - 1);
    assert cwd[..k + 1] + cwd[k + 1..] == cwd;
    assert PlaceOf(cwd).stack[..0] == [];
  }

  lemma {:induction false} WalkAppend(p: Place, a: seq<string>, b: seq<string>)
    requires p.root != "" && p.root[0] == '/'
    ensures Walk(p, a + b) == Walk(Walk(p, a), b)
    decreases |a|
  {
    if a == [] {
      assert a + b == b;
    } else {
      WalkAppend(Visit(p, a[0]), a[1..], b);
      assert (a + b)[1..] == a[1..] + b;
    }
  }

  lemma TokensOfComponent(c: string)
    requires Component(c)
    ensures Tokens(c) == [c]
  {
    assert forall i :: 0 <= i < |c| ==> c[i] in c;
    FirstSlashIs(c, |c|);
    assert c[..|c|] == c;
  }

  lemma TokensCons(c: string, rest: string)
    requires Component(c)
    ensures Tokens(c + "/" + rest) == [c] + Tokens(rest)
  {
    var all := c + "/" + rest;
    assert forall i :: 0 <= i < |c| ==> all[i] == c[i] && c[i] in c;
    FirstSlashIs(all, |c|);
    assert all[..|c|] == c && all[|c| + 1..] == rest;
  }

  /** Components in front of a path, each followed by a slash. */
  function Under(stack: seq<string>, path: string): (r: string) {
    if stack == [] then path else stack[0] + "/" + Under(stack[1..], path)
  }

  lemma {:induction false} TokensUnder(stack: seq<string>, path: string)
    requires forall i :: 0 <= i < |stack| ==> Component(stack[i])
    ensures Tokens(Under(stack, path)) == stack + Tokens(path)
  {
    if stack == [] {
      assert [] + Tokens(path) == Tokens(path);
    } else {
      TokensUnder(stack[1..], path);
      assert Component(stack[0]);
      TokensCons(stack[0], Under(stack[1..], path));
      SplitSeq(stack, 1);
      Reassociate(stack[..1], stack[1..], Tokens(path));
    }
  }

  lemma {:induction false} SlashedUnder(p: Place, path: string)
    ensures Slashed(p) + path == p.root + Under(p.stack, path)
    decreases |p.stack|
  {
    if p.stack != [] {
      var front, c := p.stack[..|p.stack| - 1], p.stack[|p.stack| - 1];
      SlashedUnder(p.(stack := front), c + "/" + path);
      assert Slashed(p) + path == Slashed(p.(stack := front)) + (c + "/" + path);
      UnderSnoc(front, c, path);
      assert front + [c] == p.stack;
    }
  }

  lemma {:induction false} UnderSnoc(stack: seq<string>, c: string, path: string)
    ensures Under(stack + [c], path) == Under(stack, c + "/" + path)
  {
    if stack == [] {
      assert [] + [c] == [c] && [c][1..] == [];
    } else {
      assert (stack + [c])[1..] == stack[1..] + [c];
      UnderSnoc(stack[1..], c, path);
    }
  }

  lemma JoinedStart(at: Place, path: string)
    requires Canonical(at) && path != "" && path[0] != '/'
    ensures var whole := Slashed(at) + path;
            && whole != "" && whole[0] == '/'
            && StartOf(whole) == (Place(at.root, []), |at.root|)
            && whole[|at.root|..] == Under(at.stack, path)
  {
    SlashedUnder(at, path);
    var tail := Under(at.stack, path);
    if at.stack != [] {
      assert Ordinary(at.stack[0]) && at.stack[0][0] in at.stack[0];
      assert tail[0] == at.stack[0][0];
    }
    assert (at.root + tail)[|at.root|] == tail[0] && tail[0] != '/';
  }

  /** From a working directory in normal form, as the system reports it, a relative path
      resolves like the absolute path that joins the two. */
  lemma RelativeIsJoined(at: Place, path: string)
    requires Canonical(at) && path != "" && path[0] != '/'
    ensures var cwd := Render(at);
            && cwd != "" && cwd[0] == '/'
            && Slashed(at) + path != "" && (Slashed(at) + path)[0] == '/'
            && Render(Walk(PlaceOf(cwd), Tokens(path))) == Normalize(Slashed(at) + path)
  {
    CwdIsPlace(at);
    TokensHaveNoSlash(path);
    AlikeWalk(PlaceOf(Render(at)), at, Tokens(path));
    AlikeRender(Walk(PlaceOf(Render(at)), Tokens(path)), Walk(at, Tokens(path)));
    JoinedStart(at, path);
    TokensUnder(at.stack, path);
    WalkAppend(Place(at.root, []), at.stack, Tokens(path));
    WalkOrdinary(Place(at.root, []), at.stack);
    assert [] + at.stack == at.stack;
  }
}

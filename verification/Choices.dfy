/** The token trie that confines decoding to a finite set of choices. */
module ChoiceTries {
  import opened Options
  import opened Orders
  import opened SerialDecoding

  const MAX_CHOICE := 64

  datatype Node = Node(children: map<Token, Node>, terminal: bool)

  const LEAF := Node(map[], false)

  function Insert(node: Node, path: seq<Token>): Node
    decreases |path|
  {
    if path == [] then node.(terminal := true)
    else
      var child := if path[0] in node.children then node.children[path[0]] else LEAF;
      node.(children := node.children[path[0] := Insert(child, path[1..])])
  }

  /** The node a prefix leads to; None where the dictionary lookup would raise. */
  function Find(node: Node, prefix: seq<Token>): Option<Node>
    decreases |prefix|
  {
    if prefix == [] then Some(node)
    else if prefix[0] in node.children then Find(node.children[prefix[0]], prefix[1..])
    else None
  }

  predicate Reaches(node: Node, prefix: seq<Token>) { Find(node, prefix).Some? }

  predicate Accepts(node: Node, path: seq<Token>) { Reaches(node, path) && Find(node, path).value.terminal }

  /** Inserting a path adds its prefixes as nodes and itself as a terminal, and nothing else. */
  lemma {:induction false} InsertAdds(node: Node, path: seq<Token>, q: seq<Token>)
    ensures Reaches(Insert(node, path), q) <==> q <= path || Reaches(node, q)
    ensures Accepts(Insert(node, path), q) <==> q == path || Accepts(node, q)
    decreases |path|
  {
    if path != [] && q != [] {
      var child := if path[0] in node.children then node.children[path[0]] else LEAF;
      if q[0] == path[0] {
        InsertAdds(child, path[1..], q[1..]);
        assert q == [q[0]] + q[1..] && path == [path[0]] + path[1..];
      }
    }
  }

  lemma {:induction false} FindStep(node: Node, prefix: seq<Token>, t: Token)
    requires Reaches(node, prefix)
    ensures Reaches(node, prefix + [t]) <==> t in Find(node, prefix).value.children
    decreases |prefix|
  {
    if prefix == [] {
      assert prefix + [t] == [t] && [t][1..] == [];
      assert Find(node, [t]) == if t in node.children then Find(node.children[t], []) else None;
    } else {
      assert (prefix + [t])[1..] == prefix[1..] + [t];
      FindStep(node.children[prefix[0]], prefix[1..], t);
    }
  }

  /** What the constructor demands of the encoded choices. */
  predicate Acceptable(paths: seq<seq<Token>>, eos: set<Token>, limit: nat, minimum: nat) {
    && eos != {} && paths != []
    && (forall p :: p in paths ==> 1 <= |p| <= MAX_CHOICE && forall t :: t in p ==> t !in eos)
    && (forall i, j :: 0 <= i < j < |paths| ==> paths[i] != paths[j])
    && (forall p :: p in paths ==> |p| + 1 <= limit && minimum <= |p|)
  }

  /** The nodes are the prefixes of the choices and the terminals are the choices. */
  ghost predicate Represents(root: Node, paths: seq<seq<Token>>) {
    && (forall q :: Reaches(root, q) <==> q == [] || Starts(paths, q))
    && (forall q :: Accepts(root, q) <==> q in paths)
  }

  /** Whether every choice has 1 to 64 tokens, none of them an EOS token. */
  method CheckTokens(paths: seq<seq<Token>>, eos: set<Token>) returns (ok: bool)
    ensures ok <==> forall p :: p in paths ==> 1 <= |p| <= 64 && forall t :: t in p ==> t !in eos
  {
    for i := 0 to |paths|
      invariant forall p :: p in paths[..i] ==> 1 <= |p| <= 64 && forall t :: t in p ==> t !in eos
    {
      assert paths[i] in paths && paths[..i + 1] == paths[..i] + [paths[i]];
      if paths[i] == [] || |paths[i]| > MAX_CHOICE || exists t :: t in paths[i] && t in eos { return false; }
    }
    assert paths[..|paths|] == paths;
    ok := true;
  }

  ghost predicate Distinct(paths: seq<seq<Token>>) {
    forall i, j :: 0 <= i < j < |paths| ==> paths[i] != paths[j]
  }

  lemma DistinctNext(paths: seq<seq<Token>>, path: seq<Token>)
    ensures Distinct(paths + [path]) <==> Distinct(paths) && path !in paths
  {
    var longer := paths + [path];
    assert forall i :: 0 <= i < |paths| ==> longer[i] == paths[i];
    if path in paths {
      var i :| 0 <= i < |paths| && paths[i] == path;
      assert longer[i] == longer[|paths|];
    }
    if i, j :| 0 <= i < j < |paths| && paths[i] == paths[j] { assert longer[i] == longer[j]; }
  }

  /** Whether the set of all choices is as large as their list. */
  method CheckDistinct(paths: seq<seq<Token>>) returns (ok: bool)
    ensures ok <==> forall i, j :: 0 <= i < j < |paths| ==> paths[i] != paths[j]
  {
    var seen: set<seq<Token>> := {};
    for i := 0 to |paths|
      invariant |seen| <= i && forall p :: p in seen <==> p in paths[..i]
      invariant |seen| == i <==> Distinct(paths[..i])
    {
      assert paths[..i + 1] == paths[..i] + [paths[i]];
      DistinctNext(paths[..i], paths[i]);
      if paths[i] in seen { assert seen + {paths[i]} == seen; }
      seen := seen + {paths[i]};
    }
    assert paths[..|paths|] == paths;
    ok := |seen| == |paths|;
  }

  /** Whether the limit leaves room for the longest choice and EOS, and no choice is shorter than the minimum. */
  method CheckBudget(paths: seq<seq<Token>>, limit: nat, minimum: nat) returns (ok: bool)
    requires paths != []
    ensures ok <==> forall p :: p in paths ==> |p| + 1 <= limit && minimum <= |p|
  {
    var longest, shortest := |paths[0]|, |paths[0]|;
    for i := 0 to |paths|
      invariant forall p :: p in paths[..i] ==> shortest <= |p| <= longest
      invariant (exists p :: p in paths && |p| == longest) && exists p :: p in paths && |p| == shortest
    {
      assert paths[i] in paths && paths[..i + 1] == paths[..i] + [paths[i]];
      if longest < |paths[i]| { longest := |paths[i]|; }
      if |paths[i]| < shortest { shortest := |paths[i]|; }
    }
    assert paths[..|paths|] == paths;
    ok := !(limit < longest + 1 || minimum > shortest);
  }

  method Build(paths: seq<seq<Token>>, eos: set<Token>, limit: nat, minimum: nat) returns (root: Option<Node>)
    ensures root.Some? <==> Acceptable(paths, eos, limit, minimum)
    ensures root.Some? ==> Represents(root.value, paths)
  {
    if eos == {} { return None; }
    var ok := CheckTokens(paths, eos);
    if !ok { return None; }
    ok := CheckDistinct(paths);
    if !ok || paths == [] { return None; }
    ok := CheckBudget(paths, limit, minimum);
    if !ok { return None; }
    var node := LEAF;
    for i := 0 to |paths|
      invariant Represents(node, paths[..i])
    {
      assert paths[..i + 1] == paths[..i] + [paths[i]];
      InsertRepresents(node, paths[..i], paths[i]);
      node := Insert(node, paths[i]);
    }
    assert paths[..|paths|] == paths;
    root := Some(node);
  }

  lemma InsertRepresents(node: Node, paths: seq<seq<Token>>, path: seq<Token>)
    requires Represents(node, paths)
    ensures Represents(Insert(node, path), paths + [path])
  {
    forall q ensures Reaches(Insert(node, path), q) <==> q == [] || Starts(paths + [path], q)
             ensures Accepts(Insert(node, path), q) <==> q in paths + [path] {
      InsertAdds(node, path, q);
      assert Starts(paths + [path], q) <==> q <= path || Starts(paths, q) by {
        if q <= path { assert path in paths + [path]; }
        if Starts(paths, q) {
          var p :| p in paths && q <= p;
          assert p in paths + [path];
        }
      }
    }
  }

  // ---- the sorted list of admissible next tokens ----

  lemma {:induction false} HasLeast(s: set<Token>) returns (least: Token)
    requires s != {}
    ensures least in s && forall x :: x in s ==> least <= x
    decreases |s|
  {
    least :| least in s;
    var rest := s - {least};
    assert s == rest + {least};
    if rest != {} {
      var k := HasLeast(rest);
      if k < least { least := k; }
    }
  }

  function Least(s: set<Token>): (m: Token)
    requires s != {}
    ensures m in s && forall x :: x in s ==> m <= x
  {
    assert exists m :: m in s && forall x :: x in s ==> m <= x by { var m := HasLeast(s); }
    var m :| m in s && forall x :: x in s ==> m <= x;
    m
  }

  /** The elements of a set in increasing order. */
  function Sorted(s: set<Token>): (r: seq<Token>)
    ensures (forall x :: x in r <==> x in s) && Ascending(r)
    decreases |s|
  {
    if s == {} then []
    else
      var m := Least(s);
      var rest := Sorted(s - {m});
      assert Ascending([m] + rest) by { assert forall i :: 0 <= i < |rest| ==> rest[i] in s - {m}; }
      [m] + rest
  }

  function Admissible(root: Node, eos: set<Token>, prefix: seq<Token>): Option<seq<Token>> {
    match Find(root, prefix)
    case None => None
    case Some(node) => Some(Sorted(node.children.Keys + (if node.terminal then eos else {})))
  }

  predicate ValidChoice(paths: seq<seq<Token>>, eos: set<Token>, tokens: seq<Token>) {
    tokens != [] && tokens[|tokens| - 1] in eos && tokens[..|tokens| - 1] in paths
  }

  /** Some choice starts with `prefix`. */
  ghost predicate Starts(paths: seq<seq<Token>>, prefix: seq<Token>) {
    exists p :: p in paths && prefix <= p
  }

  /**
   * The admissible tokens after a prefix of a choice: those that extend it to a prefix, and EOS after a whole choice.
   */
  lemma AdmissibleMeans(root: Node, paths: seq<seq<Token>>, eos: set<Token>, prefix: seq<Token>, t: Token)
    requires Represents(root, paths) && Starts(paths, prefix)
    ensures Admissible(root, eos, prefix).Some?
    ensures t in Admissible(root, eos, prefix).value <==> (t in eos && prefix in paths) || Starts(paths, prefix + [t])
  {
    assert Reaches(root, prefix);
    FindStep(root, prefix, t);
    assert Accepts(root, prefix) <==> prefix in paths;
    assert Reaches(root, prefix + [t]) <==> Starts(paths, prefix + [t]);
  }

  lemma PrefixGrows(prefix: seq<Token>, p: seq<Token>)
    requires prefix <= p && |prefix| < |p|
    ensures prefix + [p[|prefix|]] <= p
  {
    assert p[..|prefix| + 1] == p[..|prefix|] + [p[|prefix|]];
  }

  /** After a prefix of a choice there is always an admissible token that the minimum length does not forbid. */
  lemma AlwaysASuccessor(root: Node, paths: seq<seq<Token>>, eos: set<Token>, limit: nat, minimum: nat,
      prefix: seq<Token>)
    returns (t: Token)
    requires Acceptable(paths, eos, limit, minimum) && Represents(root, paths) && Starts(paths, prefix)
    ensures Admissible(root, eos, prefix).Some? && t in Admissible(root, eos, prefix).value
    ensures t in eos ==> minimum <= |prefix|
    ensures (t in eos && prefix in paths) || exists p :: p in paths && t in p
  {
    var p :| p in paths && prefix <= p;
    if prefix == p {
      t :| t in eos;
    } else {
      t := p[|prefix|];
      PrefixGrows(prefix, p);
    }
    AdmissibleMeans(root, paths, eos, prefix, t);
  }
}

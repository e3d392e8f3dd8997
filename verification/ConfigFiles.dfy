/** Processing configuration files that include one another
    (app/sources/Options.cpp, ProcessConfigFile, ProcessConfigFiles and Options::Parse). */
module ConfigFiles {
  import opened StringHelper
  import opened Options

  /** An absolute, normalised file path. */
  type Key = string
  type Dir = string

  /** What the option parser makes of a parameter list: the configuration files it names
      and everything else, both in order. None is a parameter list it rejects. */
  datatype Parsed = Parsed(configFiles: seq<string>, others: seq<string>)

  /** The files, their lines, and the library functions the traversal calls. */
  datatype World = World(
    lines: map<Key, seq<string>>,
    resolve: (Dir, string) -> Key,
    parent: Key -> Dir,
    parse: seq<string> -> Option<Parsed>)
  {
    /** The parameters on the lines, or None at the first line that cannot be tokenized. */
    static function TokenizeAll(text: seq<string>, found: seq<string>): Option<seq<string>> {
      if text == [] then Some(found)
      else
        match Extend(found, text[0], 0)
        case Ok(more) => TokenizeAll(text[1..], more)
        case Err(_) => None
    }

    /** What processing one file contributes; None if the file is missing, cannot be
        tokenized or is rejected. A file without parameters is not even parsed. */
    function Effect(k: Key): Option<Parsed> {
      if k !in lines then None
      else
        match TokenizeAll(lines[k], [""])
        case None => None
        case Some(params) => if |params| > 1 then parse(params) else Some(Parsed([], []))
    }

    predicate Good(k: Key) {
      Effect(k).Some?
    }

    function Resolved(dir: Dir, names: seq<string>): (keys: seq<Key>)
      ensures |keys| == |names|
      ensures forall i :: 0 <= i < |names| ==> keys[i] == resolve(dir, names[i])
    {
      seq(|names|, i requires 0 <= i < |names| => resolve(dir, names[i]))
    }

    /** The files a good file includes, in order. */
    function Includes(k: Key): seq<Key>
      requires Good(k)
    {
      Resolved(parent(k), Effect(k).value.configFiles)
    }
  }

  // ----- Depth-first preorder

  datatype Visit = Visit(seen: set<Key>, order: seq<Key>)

  /** Visits `keys` in turn, each with all it includes before the next, skipping what was
      seen; None as soon as a file is not good. */
  function Explore(w: World, keys: seq<Key>, seen: set<Key>): (v: Option<Visit>)
    ensures v.Some? ==> seen <= v.value.seen
    decreases w.lines.Keys - seen, |keys|
  {
    if keys == [] then Some(Visit(seen, []))
    else if keys[0] in seen then Explore(w, keys[1..], seen)
    else if !w.Good(keys[0]) then None
    else
      var k := keys[0];
      assert k in w.lines.Keys - seen && k !in w.lines.Keys - (seen + {k});
      match Explore(w, w.Includes(k), seen + {k})
      case None => None
      case Some(below) =>
        match Explore(w, keys[1..], below.seen)
        case None => None
        case Some(after) => Some(Visit(after.seen, [k] + below.order + after.order))
  }

  /** All other parameters of the files, file by file. */
  function OthersOf(w: World, order: seq<Key>): seq<string> {
    if order == [] then []
    else (if w.Good(order[0]) then w.Effect(order[0]).value.others else []) + OthersOf(w, order[1..])
  }

  lemma {:induction false} OthersOfConcat(w: World, a: seq<Key>, b: seq<Key>)
    ensures OthersOf(w, a + b) == OthersOf(w, a) + OthersOf(w, b)
  {
    if a == [] {
      assert a + b == b;
    } else {
      assert (a + b)[1..] == a[1..] + b;
      OthersOfConcat(w, a[1..], b);
    }
  }

  // ----- The traversal

  /** The option parser's state that the traversal works on. */
  class ConfigReader {
    const world: World
    var pending: seq<string>
    var applied: seq<string>
    var processed: set<Key>

    constructor (world: World, pending: seq<string>)
      ensures this.world == world && this.pending == pending && applied == [] && processed == {}
    {
      this.world, this.pending, applied, processed := world, pending, [], {};
    }

    /** Appends what the file holds to the option lists; false if it fails. */
    method ProcessConfigFile(k: Key) returns (ok: bool)
      modifies `pending, `applied
      ensures ok == world.Good(k)
      ensures ok ==> pending == old(pending) + world.Effect(k).value.configFiles
      ensures ok ==> applied == old(applied) + world.Effect(k).value.others
    {
      if k !in world.lines {
        return false;
      }
      var params := [""];
      var lines := world.lines[k];
      for i := 0 to |lines|
        invariant pending == old(pending) && applied == old(applied)
        invariant World.TokenizeAll(lines, [""]) == World.TokenizeAll(lines[i..], params)
      {
        var r := ProcessConfigLine(lines[i], params);
        assert lines[i..][1..] == lines[i + 1..];
        match r {
          case Ok(more) => params := more;
          case Err(_) => return false;
        }
      }
      assert lines[|lines|..] == [];
      if |params| > 1 {
        match world.parse(params) {
          case None => return false;
          case Some(p) =>
            pending := pending + p.configFiles;
            applied := applied + p.others;
        }
      } else {
        assert pending + [] == pending && applied + [] == applied;
      }
      ok := true;
    }

    method ProcessConfigFiles(dir: Dir) returns (ok: bool)
      modifies `pending, `applied, `processed
      ensures var v := Explore(world, old(world.Resolved(dir, pending)), old(processed));
              && ok == v.Some?
              && (ok ==>
                    pending == [] && processed == v.value.seen &&
                    applied == old(applied) + OthersOf(world, v.value.order))
      decreases world.lines.Keys - processed
    {
      hide Explore, World.Effect;
      var configFiles := pending;
      pending := [];
      ghost var keys := world.Resolved(dir, configFiles);
      ghost var order: seq<Key> := [];
      for i := 0 to |configFiles|
        invariant pending == []
        invariant old(processed) <= processed
        invariant applied == old(applied) + OthersOf(world, order)
        invariant Continues(Explore(world, keys, old(processed)), order, Explore(world, keys[i..], processed))
      {
        var k := world.resolve(dir, configFiles[i]);
        assert keys[i..][0] == k && keys[i..][1..] == keys[i + 1..];
        ExploreHead(world, keys[i..], processed);
        if k !in processed {
          ghost var seen := processed;
          processed := processed + {k};
          ok := ProcessConfigFile(k);
          if !ok {
            return;
          }
          assert pending == world.Effect(k).value.configFiles;
          ghost var below := Explore(world, world.Includes(k), seen + {k});
          assert k in world.lines.Keys - seen;
          ok := ProcessConfigFiles(world.parent(k));
          if !ok {
            return;
          }
          ghost var step := [k] + below.value.order;
          ContinuesOn(Explore(world, keys, old(processed)), order, Explore(world, keys[i..], seen), step,
                      Explore(world, keys[i + 1..], processed));
          OthersOfConcat(world, order, step);
          assert step[1..] == below.value.order;
          order := order + step;
        }
      }
      assert keys[|configFiles|..] == [];
      ExploreNone(world, processed);
      assert order + [] == order;
      ok := true;
    }
  }

  /** `whole` comes out as `done` followed by whatever `rest` comes out as. */
  ghost predicate Continues(whole: Option<Visit>, done: seq<Key>, rest: Option<Visit>) {
    && whole.Some? == rest.Some?
    && (rest.Some? ==> whole.value.seen == rest.value.seen && whole.value.order == done + rest.value.order)
  }

  lemma ContinuesOn(whole: Option<Visit>, done: seq<Key>, middle: Option<Visit>, more: seq<Key>, rest: Option<Visit>)
    requires Continues(whole, done, middle) && Continues(middle, more, rest)
    ensures Continues(whole, done + more, rest)
  {
    if rest.Some? {
      Regroup(done, more, rest.value.order);
    }
  }

  /** One key of the list: skipped, rejected, or visited with all it includes. */
  lemma ExploreHead(w: World, keys: seq<Key>, seen: set<Key>)
    requires keys != []
    ensures keys[0] in seen ==> Explore(w, keys, seen) == Explore(w, keys[1..], seen)
    ensures keys[0] !in seen && !w.Good(keys[0]) ==> Explore(w, keys, seen).None?
    ensures keys[0] !in seen && w.Good(keys[0]) ==>
              var below := Explore(w, w.Includes(keys[0]), seen + {keys[0]});
              && keys[0] in w.lines
              && (below.None? ==> Explore(w, keys, seen).None?)
              && (below.Some? ==>
                    Continues(Explore(w, keys, seen), [keys[0]] + below.value.order,
                              Explore(w, keys[1..], below.value.seen)))
  {
  }

  lemma ExploreNone(w: World, seen: set<Key>)
    ensures Explore(w, [], seen) == Some(Visit(seen, []))
  {
  }

  // ----- What is visited

  /** `path` leads from one of `roots` along includes; all its files but the last are good. */
  ghost predicate IsPath(w: World, roots: seq<Key>, path: seq<Key>) {
    && path != [] && path[0] in roots
    && forall i :: 0 <= i < |path| - 1 ==> w.Good(path[i]) && path[i + 1] in w.Includes(path[i])
  }

  ghost predicate Reachable(w: World, roots: seq<Key>, k: Key) {
    exists path :: IsPath(w, roots, path) && path[|path| - 1] == k
  }

  ghost predicate NoDuplicates<T>(s: seq<T>) {
    forall i, j :: 0 <= i < j < |s| ==> s[i] != s[j]
  }

  lemma ReachableRoot(w: World, roots: seq<Key>, k: Key)
    requires k in roots
    ensures Reachable(w, roots, k)
  {
    assert IsPath(w, roots, [k]) && [k][|[k]| - 1] == k;
  }

  lemma ReachableWeaken(w: World, fewer: seq<Key>, roots: seq<Key>, k: Key)
    requires Reachable(w, fewer, k) && forall r :: r in fewer ==> r in roots
    ensures Reachable(w, roots, k)
  {
    var path :| IsPath(w, fewer, path) && path[|path| - 1] == k;
    assert IsPath(w, roots, path);
  }

  lemma ReachableThrough(w: World, roots: seq<Key>, via: Key, k: Key)
    requires via in roots && w.Good(via) && Reachable(w, w.Includes(via), k)
    ensures Reachable(w, roots, k)
  {
    var path :| IsPath(w, w.Includes(via), path) && path[|path| - 1] == k;
    var longer := [via] + path;
    forall i | 0 <= i < |longer| - 1 ensures w.Good(longer[i]) && longer[i + 1] in w.Includes(longer[i]) {
      if i > 0 { assert longer[i] == path[i - 1] && longer[i + 1] == path[i]; }
    }
    assert IsPath(w, roots, longer) && longer[|longer| - 1] == k;
  }

  /** What a completed visit looks like. */
  ghost predicate Completed(w: World, keys: seq<Key>, seen: set<Key>, v: Visit) {
    && v.seen == seen + (set k | k in v.order)
    && (forall k :: k in v.order ==> k !in seen)
    && NoDuplicates(v.order)
    && (forall k :: k in keys ==> k in v.seen)
    && forall k :: k in v.order ==> w.Good(k) && forall c :: c in w.Includes(k) ==> c in v.seen
  }

  lemma {:induction false} ExploreCompletes(w: World, keys: seq<Key>, seen: set<Key>)
    requires Explore(w, keys, seen).Some?
    ensures Completed(w, keys, seen, Explore(w, keys, seen).value)
    decreases w.lines.Keys - seen, |keys|
  {
    if keys == [] {
    } else if keys[0] in seen {
      ExploreCompletes(w, keys[1..], seen);
    } else {
      var k := keys[0];
      assert k in w.lines.Keys - seen && k !in w.lines.Keys - (seen + {k});
      var below := Explore(w, w.Includes(k), seen + {k}).value;
      var after := Explore(w, keys[1..], below.seen).value;
      ExploreCompletes(w, w.Includes(k), seen + {k});
      ExploreCompletes(w, keys[1..], below.seen);
      CompletedJoins(w, keys, seen, below, after);
    }
  }

  lemma CompletedJoins(w: World, keys: seq<Key>, seen: set<Key>, below: Visit, after: Visit)
    requires keys != [] && keys[0] !in seen && w.Good(keys[0])
    requires Completed(w, w.Includes(keys[0]), seen + {keys[0]}, below)
    requires Completed(w, keys[1..], below.seen, after)
    ensures Completed(w, keys, seen, Visit(after.seen, [keys[0]] + below.order + after.order))
  {
    var k := keys[0];
    var order := [k] + below.order + after.order;
    assert forall x :: x in order <==> x == k || x in below.order || x in after.order;
    assert NoDuplicates(order) by {
      forall i, j | 0 <= i < j < |order| ensures order[i] != order[j] {
        var n := 1 + |below.order|;
        if j < n {
          assert order[j] == below.order[j - 1];
          if i > 0 { assert order[i] == below.order[i - 1]; }
        } else {
          assert order[j] == after.order[j - n];
          if i >= n { assert order[i] == after.order[i - n]; }
          else if i > 0 { assert order[i] == below.order[i - 1] && below.order[i - 1] in below.seen; }
        }
      }
    }
    assert forall x :: x in keys ==> x == k || x in keys[1..];
  }

  /** Every file visited is reachable. */
  lemma {:induction false} ExploreIsSound(w: World, keys: seq<Key>, seen: set<Key>, k: Key)
    requires Explore(w, keys, seen).Some? && k in Explore(w, keys, seen).value.order
    ensures Reachable(w, keys, k)
    decreases w.lines.Keys - seen, |keys|
  {
    var head := keys[0];
    if head in seen {
      ExploreIsSound(w, keys[1..], seen, k);
      ReachableWeaken(w, keys[1..], keys, k);
    } else {
      assert head in w.lines.Keys - seen && head !in w.lines.Keys - (seen + {head});
      var below := Explore(w, w.Includes(head), seen + {head}).value;
      if k == head {
        ReachableRoot(w, keys, k);
      } else if k in below.order {
        ExploreIsSound(w, w.Includes(head), seen + {head}, k);
        ReachableThrough(w, keys, head, k);
      } else {
        ExploreIsSound(w, keys[1..], below.seen, k);
        ReachableWeaken(w, keys[1..], keys, k);
      }
    }
  }

  /** A visit fails only for a reachable file that is not good. */
  lemma {:induction false} ExploreFailsAt(w: World, keys: seq<Key>, seen: set<Key>) returns (bad: Key)
    requires Explore(w, keys, seen).None?
    ensures Reachable(w, keys, bad) && !w.Good(bad)
    decreases w.lines.Keys - seen, |keys|
  {
    var head := keys[0];
    if head in seen {
      bad := ExploreFailsAt(w, keys[1..], seen);
      ReachableWeaken(w, keys[1..], keys, bad);
    } else if !w.Good(head) {
      bad := head;
      ReachableRoot(w, keys, bad);
    } else {
      assert head in w.lines.Keys - seen && head !in w.lines.Keys - (seen + {head});
      var below := Explore(w, w.Includes(head), seen + {head});
      if below.None? {
        bad := ExploreFailsAt(w, w.Includes(head), seen + {head});
        ReachableThrough(w, keys, head, bad);
      } else {
        bad := ExploreFailsAt(w, keys[1..], below.value.seen);
        ReachableWeaken(w, keys[1..], keys, bad);
      }
    }
  }

  /** A completed visit that started with nothing seen has seen all that is reachable. */
  lemma {:induction false} ReachableIsSeen(w: World, keys: seq<Key>, v: Visit, path: seq<Key>)
    requires Completed(w, keys, {}, v) && IsPath(w, keys, path)
    ensures path[|path| - 1] in v.order
    decreases |path|
  {
    if |path| > 1 {
      var shorter := path[..|path| - 1];
      assert IsPath(w, keys, shorter) by {
        forall i | 0 <= i < |shorter| - 1 ensures w.Good(shorter[i]) && shorter[i + 1] in w.Includes(shorter[i]) {
          assert shorter[i] == path[i] && shorter[i + 1] == path[i + 1];
        }
      }
      ReachableIsSeen(w, keys, v, shorter);
      assert path[|path| - 2 + 1] in w.Includes(path[|path| - 2]);
    }
  }

  /** Over any include graph, cyclic or not, the traversal succeeds exactly when every
      reachable file is good, and then it visits exactly the reachable files, each once. */
  lemma ExploreVisitsReachable(w: World, keys: seq<Key>)
    ensures var v := Explore(w, keys, {});
            && (v.Some? <==> forall k :: Reachable(w, keys, k) ==> w.Good(k))
            && (v.Some? ==> NoDuplicates(v.value.order) && forall k :: k in v.value.order <==> Reachable(w, keys, k))
  {
    var v := Explore(w, keys, {});
    if v.None? {
      var bad := ExploreFailsAt(w, keys, {});
    } else {
      ExploreCompletes(w, keys, {});
      forall k ensures k in v.value.order <==> Reachable(w, keys, k) {
        if k in v.value.order {
          ExploreIsSound(w, keys, {}, k);
        }
        if Reachable(w, keys, k) {
          var path :| IsPath(w, keys, path) && path[|path| - 1] == k;
          ReachableIsSeen(w, keys, v.value, path);
        }
      }
    }
  }

  ghost predicate IncludedEarlier(w: World, order: seq<Key>, i: nat)
    requires i < |order|
  {
    exists j :: 0 <= j < i && w.Good(order[j]) && order[i] in w.Includes(order[j])
  }

  /** Preorder: a file is visited after the one that includes it, unless it is named directly. */
  lemma {:induction false} IncluderComesFirst(w: World, keys: seq<Key>, seen: set<Key>, i: nat)
    requires Explore(w, keys, seen).Some? && i < |Explore(w, keys, seen).value.order|
    ensures var order := Explore(w, keys, seen).value.order; order[i] in keys || IncludedEarlier(w, order, i)
    decreases w.lines.Keys - seen, |keys|
  {
    var order := Explore(w, keys, seen).value.order;
    var head := keys[0];
    if head in seen {
      IncluderComesFirst(w, keys[1..], seen, i);
    } else if i > 0 {
      assert head in w.lines.Keys - seen && head !in w.lines.Keys - (seen + {head});
      var below := Explore(w, w.Includes(head), seen + {head}).value;
      var after := Explore(w, keys[1..], below.seen).value;
      var n := 1 + |below.order|;
      if i < n {
        IncluderComesFirst(w, w.Includes(head), seen + {head}, i - 1);
        if order[i] in w.Includes(head) {
          assert order[0] == head;
        } else {
          LaterInOrder(w, [head], below.order, after.order, i - 1);
        }
      } else {
        IncluderComesFirst(w, keys[1..], below.seen, i - n);
        if after.order[i - n] !in keys {
          assert order == [head] + below.order + after.order + [];
          LaterInOrder(w, [head] + below.order, after.order, [], i - n);
        }
      }
    }
  }

  lemma LaterInOrder(w: World, front: seq<Key>, order: seq<Key>, back: seq<Key>, i: nat)
    requires i < |order| && IncludedEarlier(w, order, i)
    ensures IncludedEarlier(w, front + order + back, |front| + i)
  {
    var j :| 0 <= j < i && w.Good(order[j]) && order[i] in w.Includes(order[j]);
    assert (front + order + back)[|front| + j] == order[j];
  }

  /** Files are visited in turn: all that comes of the first ones before any of the others. */
  lemma {:induction false} ExploreInTurn(w: World, a: seq<Key>, b: seq<Key>, seen: set<Key>)
    ensures var v := Explore(w, a, seen);
            Explore(w, a + b, seen) ==
            if v.None? then None
            else
              match Explore(w, b, v.value.seen)
              case None => None
              case Some(u) => Some(Visit(u.seen, v.value.order + u.order))
    decreases w.lines.Keys - seen, |a|
  {
    hide World.TokenizeAll;
    if a == [] {
      assert a + b == b;
      if Explore(w, b, seen).Some? { assert [] + Explore(w, b, seen).value.order == Explore(w, b, seen).value.order; }
    } else {
      assert (a + b)[0] == a[0] && (a + b)[1..] == a[1..] + b;
      if a[0] in seen {
        ExploreInTurn(w, a[1..], b, seen);
      } else if w.Good(a[0]) {
        assert a[0] in w.lines.Keys - seen && a[0] !in w.lines.Keys - (seen + {a[0]});
        var below := Explore(w, w.Includes(a[0]), seen + {a[0]});
        if below.Some? {
          ExploreInTurn(w, a[1..], b, below.value.seen);
          var after := Explore(w, a[1..], below.value.seen);
          if after.Some? && Explore(w, b, after.value.seen).Some? {
            var rest := Explore(w, b, after.value.seen).value.order;
            Regroup([a[0]] + below.value.order, after.value.order, rest);
          }
        }
      }
    }
  }

  /** What a visited file names is visited, found from the directory of the file that names it. */
  lemma IncludedIsVisited(w: World, keys: seq<Key>, k: Key, name: string)
    requires Explore(w, keys, {}).Some? && k in Explore(w, keys, {}).value.order
    requires w.Effect(k).Some? && name in w.Effect(k).value.configFiles
    ensures w.resolve(w.parent(k), name) in Explore(w, keys, {}).value.order
  {
    hide Explore, World.Effect;
    ExploreVisitsReachable(w, keys);
    var path :| IsPath(w, keys, path) && path[|path| - 1] == k;
    var names := w.Effect(k).value.configFiles;
    var i :| 0 <= i < |names| && names[i] == name;
    var next := w.Includes(k)[i];
    assert next == w.resolve(w.parent(k), name) && next in w.Includes(k);
    var longer := path + [next];
    assert IsPath(w, keys, longer) && longer[|longer| - 1] == next;
  }

  /** Each visited file hands on its own parameters, between those visited before and after it. */
  lemma OthersInOrder(w: World, before: seq<Key>, k: Key, after: seq<Key>)
    requires w.Good(k)
    ensures OthersOf(w, before + [k] + after) == OthersOf(w, before) + w.Effect(k).value.others + OthersOf(w, after)
  {
    hide World.Effect;
    OthersOfConcat(w, before + [k], after);
    OthersOfConcat(w, before, [k]);
    assert [k][1..] == [] && w.Effect(k).value.others + [] == w.Effect(k).value.others;
  }

  // ----- What the lines of a file say

  /** The lines are read one after the other. */
  lemma {:induction false} LinesInTurn(a: seq<string>, b: seq<string>, found: seq<string>)
    ensures World.TokenizeAll(a + b, found) ==
            match World.TokenizeAll(a, found)
            case None => None
            case Some(more) => World.TokenizeAll(b, more)
  {
    hide Extend;
    if a == [] {
      assert a + b == b;
    } else {
      assert (a + b)[0] == a[0] && (a + b)[1..] == a[1..] + b;
      if Extend(found, a[0], 0).Ok? { LinesInTurn(a[1..], b, Extend(found, a[0], 0).value); }
    }
  }

  /** A single line adds its parameters, and fails where it cannot be tokenized. */
  lemma OneLineIsRead(line: string, found: seq<string>)
    ensures World.TokenizeAll([line], found) ==
            match Tokenize(line)
            case None => None
            case Some(tokens) => Some(found + tokens)
  {
    assert [line][1..] == [];
  }

  function Joined<T>(groups: seq<seq<T>>): seq<T> {
    if groups == [] then [] else groups[0] + Joined(groups[1..])
  }

  /** Every line of a file is read, and one that cannot be tokenized spoils it. */
  lemma {:induction false} AllLinesAreRead(lines: seq<string>, groups: seq<seq<string>>, found: seq<string>)
    requires |lines| == |groups|
    ensures (exists i :: 0 <= i < |lines| && Tokenize(lines[i]).None?) ==> World.TokenizeAll(lines, found) == None
    ensures (forall i :: 0 <= i < |lines| ==> Tokenize(lines[i]) == Some(groups[i])) ==>
              World.TokenizeAll(lines, found) == Some(found + Joined(groups))
  {
    hide Tokenize, World.TokenizeAll;
    if lines == [] {
      assert World.TokenizeAll([], found) == Some(found) by { NoLines(found); }
      assert found + [] == found;
    } else {
      assert [lines[0]] + lines[1..] == lines;
      LinesInTurn([lines[0]], lines[1..], found);
      OneLineIsRead(lines[0], found);
      if Tokenize(lines[0]).Some? {
        var more := found + Tokenize(lines[0]).value;
        AllLinesAreRead(lines[1..], groups[1..], more);
        Regroup(found, groups[0], Joined(groups[1..]));
        if i :| 0 <= i < |lines| && Tokenize(lines[i]).None? { assert i > 0 && lines[1..][i - 1] == lines[i]; }
      }
    }
  }

  lemma NoLines(found: seq<string>)
    ensures World.TokenizeAll([], found) == Some(found)
  {
  }

  /** Options that survive printing, printed on any division into lines, are all handed to the option
      parser, in order; nothing is handed to it exactly if there are none. */
  lemma PrintedFileIsRead(w: World, k: Key, groups: seq<seq<string>>)
    requires k in w.lines && |w.lines[k]| == |groups|
    requires forall i :: 0 <= i < |groups| ==> w.lines[k][i] == Printed(groups[i])
    requires forall i, o :: 0 <= i < |groups| && o in groups[i] ==> Survives(o)
    ensures w.Effect(k) == if Joined(groups) == [] then Some(Parsed([], [])) else w.parse([""] + Joined(groups))
  {
    hide Tokenize, Printed, Survives, World.TokenizeAll;
    forall i | 0 <= i < |groups| ensures Tokenize(w.lines[k][i]) == Some(groups[i]) { PrintedIsReadBack(groups[i]); }
    AllLinesAreRead(w.lines[k], groups, [""]);
  }

  /** A file is not good if one of its lines cannot be tokenized. */
  lemma UnreadableLineSpoils(w: World, k: Key, i: nat)
    requires k in w.lines && i < |w.lines[k]| && Tokenize(w.lines[k][i]).None?
    ensures !w.Good(k)
  {
    hide Tokenize, World.TokenizeAll;
    AllLinesAreRead(w.lines[k], seq(|w.lines[k]|, j => []), [""]);
  }
}

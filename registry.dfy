/**
 * The registry: memoises loggers by name and wires each new logger to its parent,
 * inferred from the dotted name, materialising missing intermediate loggers.
 */
module Registries {
  import opened Wrappers
  import opened Strings
  import opened Loggers

  /** The part of a dotted name before its last '.': the parent's name. */
  function ParentName(name: string): (p: string)
    requires '.' in name
    ensures |p| < |name| && Rank(p) < Rank(name)
  {
    name[..LastIndexOf(name, '.')]
  }

  /** The part after the last '.': the key under which a logger is entered in its parent's children. */
  function LastSegment(name: string): (r: string)
    ensures '.' !in r
  {
    name[LastIndexOf(name, '.') + 1..]
  }

  /** The name `getChild(suffix)` asks for: `<name>.<suffix>`. */
  function ChildName(name: string, suffix: string): (n: string)
    ensures '.' in n && n != "root"
  {
    assert (name + "." + suffix)[|name|] == '.';
    name + "." + suffix
  }

  /** For a suffix without '.', the child's parent name is `name` and its key is the suffix. */
  lemma ChildNameParts(name: string, suffix: string)
    requires '.' !in suffix
    ensures ParentName(ChildName(name, suffix)) == name
    ensures LastSegment(ChildName(name, suffix)) == suffix
  {
    var n := ChildName(name, suffix);
    var r := LastIndexOf(n, '.');
    assert n[|name|] == '.';
    assert r == |name|;
    assert n[..r] == name;
    assert n[r + 1..] == suffix;
  }

  /** Depth in the hierarchy: 0 for "root", otherwise the number of dot-separated segments. */
  function Depth(name: string): (d: nat)
    ensures name != "root" ==> d == |Split(name, '.')|
  {
    PiecesIsSplitLength(name, '.');
    if name == "root" then 0 else Pieces(name, '.')
  }

  /** The parent's name has one segment fewer. */
  lemma ParentNameDepth(name: string)
    requires '.' in name
    ensures Pieces(ParentName(name), '.') == Pieces(name, '.') - 1
  {
    var k := LastIndexOf(name, '.');
    CutAtLast(name, '.');
    PiecesConcat(name[..k], name[k + 1..], '.');
    PiecesOne(name[k + 1..], '.');
  }

  /** The parent's name is the name's segments but the last, joined again by '.'. */
  lemma ParentNameIsJoinOfSegments(name: string)
    requires '.' in name
    ensures ParentName(name) == Join(Split(name, '.')[..|Split(name, '.')| - 1], ".")
  {
    var k := LastIndexOf(name, '.');
    CutAtLast(name, '.');
    SplitSnoc(name[..k], name[k + 1..], '.');
    var parts := Split(name, '.');
    assert parts[..|parts| - 1] == Split(name[..k], '.');
    JoinSplit(name[..k], '.');
  }

  /** The last segment is the last piece of the split. */
  lemma LastSegmentIsLastPiece(name: string)
    ensures LastSegment(name) == Split(name, '.')[|Split(name, '.')| - 1]
  {
    var k := LastIndexOf(name, '.');
    if k == -1 {
      SplitNoSep(name, '.');
    } else {
      CutAtLast(name, '.');
      SplitSnoc(name[..k], name[k + 1..], '.');
    }
  }

  /** The parent name followed by the last segment spells the name again. */
  lemma ParentNameAndLastSegment(name: string)
    requires '.' in name
    ensures ParentName(name) + "." + LastSegment(name) == name
  {
    CutAtLast(name, '.');
  }

  /**
   * The names `getLogger(name)` creates, in creation order, when the names in `known`
   * already exist: the name itself, then (for a dotted name) its parent's, and so on up to
   * the first name that exists. "root" and single-segment names stop the chain.
   */
  ghost function Materialised(name: string, known: set<string>): seq<string>
    decreases |name|
  {
    if name in known then []
    else if name != "root" && '.' in name then [name] + Materialised(ParentName(name), known + {name})
    else [name]
  }

  /**
   * What `getLogger(name)` creates: nothing exactly when `name` exists; otherwise `name` first,
   * each later name the parent of the one before, none of them existing, no name twice, and a
   * last name whose parent exists or that has a single segment.
   */
  lemma MaterialisedContents(name: string, known: set<string>)
    ensures var m := Materialised(name, known);
      && (m == [] <==> name in known)
      && (name !in known ==> m[0] == name)
      && (forall i :: 0 <= i < |m| ==> m[i] !in known)
      && (forall i :: 0 <= i < |m| - 1 ==> '.' in m[i] && m[i + 1] == ParentName(m[i]))
      && Distinct(m)
      && (|m| > 0 && '.' in m[|m| - 1] ==> ParentName(m[|m| - 1]) in known)
  {
    MaterialisedChain(name, known);
    MaterialisedLast(name, known);
    DistinctPointwise(Materialised(name, known));
  }

  /** The chain itself: head, parent steps, nothing known, and strictly shorter names further on. */
  lemma {:induction false} MaterialisedChain(name: string, known: set<string>)
    ensures var m := Materialised(name, known);
      && (m == [] <==> name in known)
      && (name !in known ==> m[0] == name)
      && (forall i :: 0 <= i < |m| ==> m[i] !in known && |m[i]| <= |name|)
      && (forall i :: 0 <= i < |m| - 1 ==> '.' in m[i] && m[i + 1] == ParentName(m[i]))
      && (forall i, j :: 0 <= i < j < |m| ==> |m[j]| < |m[i]|)
    decreases |name|
  {
    var m := Materialised(name, known);
    if name !in known && name != "root" && '.' in name {
      var rest := Materialised(ParentName(name), known + {name});
      MaterialisedChain(ParentName(name), known + {name});
      assert m == [name] + rest;
      forall i | 0 < i < |m| ensures m[i] == rest[i - 1] { }
    }
  }

  /** The last name created has its parent among the existing names, or has no parent to create. */
  lemma {:induction false} MaterialisedLast(name: string, known: set<string>)
    ensures var m := Materialised(name, known);
      |m| > 0 && '.' in m[|m| - 1] ==> ParentName(m[|m| - 1]) in known
    decreases |name|
  {
    var m := Materialised(name, known);
    if name !in known && name != "root" && '.' in name {
      var rest := Materialised(ParentName(name), known + {name});
      MaterialisedLast(ParentName(name), known + {name});
      MaterialisedChain(ParentName(name), known + {name});
      assert m == [name] + rest;
      if |rest| > 0 {
        assert m[|m| - 1] == rest[|rest| - 1];
      }
    }
  }

  /**
   * The name of the one existing logger whose child table `getLogger(name)` changes when the
   * names in `known` exist: the parent of the last name materialised, or "root" when that last
   * name has a single segment (a "root" that does not exist yet is linked to nothing).
   */
  ghost function AnchorName(name: string, known: set<string>): (a: string)
    ensures a == "root" || |a| < |name|
    decreases |name|
  {
    if name != "root" && '.' in name then
      if ParentName(name) in known then ParentName(name) else AnchorName(ParentName(name), known)
    else "root"
  }

  /** A name longer than `name` does not change its anchor. */
  lemma {:induction false} AnchorNameLonger(name: string, known: set<string>, x: string)
    requires |x| > |name|
    ensures AnchorName(name, known + {x}) == AnchorName(name, known)
    decreases |name|
  {
    if name != "root" && '.' in name {
      AnchorNameLonger(ParentName(name), known, x);
    }
  }

  /**
   * The anchor is the parent of the last logger `getLogger(name)` materialises, or "root" when
   * that last name has a single segment.
   */
  lemma {:induction false} AnchorIsLastParent(name: string, known: set<string>)
    requires name !in known
    ensures var m := Materialised(name, known);
      |m| > 0 &&
      AnchorName(name, known) == (if m[|m| - 1] != "root" && '.' in m[|m| - 1] then ParentName(m[|m| - 1]) else "root")
    decreases |name|
  {
    if name != "root" && '.' in name {
      var p := ParentName(name);
      if p !in known {
        AnchorIsLastParent(p, known + {name});
        AnchorNameLonger(p, known, name);
      }
    }
  }

  /** The existing logger named by `AnchorName`, if it exists. */
  ghost function Anchor(name: string, loggers: map<string, Logger>): Logger?
  {
    var a := AnchorName(name, loggers.Keys);
    if a in loggers then loggers[a] else null
  }

  /** The anchor as a set: empty when no existing logger is linked to. */
  ghost function AnchorSet(name: string, loggers: map<string, Logger>): (s: set<Logger>)
    ensures Anchor(name, loggers) != null ==> s == {Anchor(name, loggers)}
    ensures Anchor(name, loggers) == null ==> s == {}
  {
    var a := Anchor(name, loggers);
    if a == null then {} else {a}
  }

  /** Registering `name` itself does not move its anchor. */
  lemma AnchorAfterRegister(name: string, loggers: map<string, Logger>, lg: Logger)
    requires name !in loggers && name != "root"
    ensures AnchorSet(name, loggers[name := lg]) == AnchorSet(name, loggers)
  {
    var known := loggers.Keys;
    assert loggers[name := lg].Keys == known + {name};
    if '.' in name {
      AnchorNameLonger(ParentName(name), known, name);
      assert ParentName(name) in known + {name} <==> ParentName(name) in known;
    }
    var a := AnchorName(name, known);
    assert AnchorName(name, known + {name}) == a;
    assert a != name;
  }

  lemma AppendAssoc<T>(a: seq<T>, b: seq<T>, c: seq<T>)
    ensures (a + b) + c == a + (b + c)
  {
  }

  lemma MaterialisedStep(name: string, known: set<string>)
    requires name !in known && name != "root"
    ensures Materialised(name, known) ==
      [name] + if '.' in name then Materialised(ParentName(name), known + {name}) else []
  {
    if '.' !in name {
      assert [name] + [] == [name];
    }
  }

  /**
   * The parent link `getLogger` gives a logger it creates, with `root` the root reference as it
   * was when the call began: the logger named by all but the last segment, or for a single
   * segment that root reference (none when there was no root).
   */
  ghost predicate WiredLogger(l: Logger, root: Logger?)
    reads l`parent
  {
    if '.' in l.name then l.parent != null && l.parent.name == ParentName(l.name)
    else l.parent == root
  }

  /** `l` is entered in its parent's children under its last segment. */
  ghost predicate Entered(l: Logger)
    requires l.parent != null
    reads l`parent, l.parent`children
  {
    LastSegment(l.name) in l.parent.children && l.parent.children[LastSegment(l.name)] == l
  }

  /** A wired parent link goes one level up in depth, or from a single segment to the root. */
  lemma WiredLinkLowersDepth(l: Logger, root: Logger?)
    requires WiredLogger(l, root) && l.name != "root" && l.parent != null
    requires root != null ==> root.name == "root"
    ensures Depth(l.parent.name) < Depth(l.name)
    ensures '.' in l.name && l.parent.name != "root" ==> Depth(l.parent.name) == Depth(l.name) - 1
  {
    PiecesOne(l.name, '.');
    if '.' in l.name {
      ParentNameDepth(l.name);
    }
  }

  /**
   * No logger added since `before` is entered under `parent` with the key of `name`, when
   * `parent` is the logger named by `name`'s parent and, unless it is new, nothing was added.
   */
  lemma NoKeyClash(loggers: map<string, Logger>, repr: set<Logger>, before: set<Logger>, root: Logger?,
                   name: string, lg: Logger, parent: Logger)
    requires Keyed(loggers, repr) && '.' in name && name in loggers && loggers[name] == lg && lg in before
    requires parent.name == ParentName(name) && (parent == root ==> repr <= before)
    requires forall l :: l in repr && l !in before && l.name != "root" ==> WiredLogger(l, root)
    ensures forall l :: l in repr && l !in before && l.name != "root" && l.parent == parent ==> LastSegment(l.name) != LastSegment(name)
  {
    forall l | l in repr && l !in before && l.name != "root" && l.parent == parent
      ensures LastSegment(l.name) != LastSegment(name)
    {
      if '.' in l.name {
        ParentNameAndLastSegment(l.name);
        ParentNameAndLastSegment(name);
      }
    }
  }

  /** A logger as `new Logger(name)` leaves it: no own level, no handlers, enabled. */
  ghost predicate Pristine(l: Logger)
    reads l`level, l`handlers, l`disabled
  {
    l.level.None? && l.handlers == [] && !l.disabled
  }

  /** Every logger of `scope` other than `except` has the child table it had in the old state. */
  twostate predicate ChildrenKept(scope: set<Logger>, except: Logger?)
    reads scope`children, scope`childOrder
  {
    forall l :: l in scope && l != except ==> l.children == old(l.children) && l.childOrder == old(l.childOrder)
  }

  /** `p._children.set(key, child)` happened between the old state and now, and nothing else to `p`'s table. */
  twostate predicate ChildSet(p: Logger, key: string, new child: Logger)
    reads p`children, p`childOrder
  {
    && p.children == old(p.children)[key := child]
    && p.childOrder == if key in old(p.children) then old(p.childOrder) else old(p.childOrder) + [key]
  }

  /** Each key maps to a logger of that name, and `repr` holds exactly the mapped loggers. */
  ghost predicate Keyed(loggers: map<string, Logger>, repr: set<Logger>) {
    && (forall n :: n in loggers ==> loggers[n] in repr && loggers[n].name == n)
    && (forall l :: l in repr ==> l.name in loggers && loggers[l.name] == l)
  }

  /** No element occurs twice: each one is new when it is appended. */
  ghost predicate Distinct<T>(s: seq<T>)
    decreases |s|
  {
    |s| == 0 || (s[|s| - 1] !in s[..|s| - 1] && Distinct(s[..|s| - 1]))
  }

  /** `Distinct` is the pointwise statement that positions hold different elements. */
  lemma {:induction false} DistinctPointwise<T>(s: seq<T>)
    ensures Distinct(s) <==> forall i, j :: 0 <= i < j < |s| ==> s[i] != s[j]
    decreases |s|
  {
    if |s| > 0 {
      var t := s[..|s| - 1];
      DistinctPointwise(t);
      if Distinct(s) {
        forall i, j | 0 <= i < j < |s| ensures s[i] != s[j] {
          if j == |s| - 1 {
            assert s[i] == t[i];
          } else {
            assert s[i] == t[i] && s[j] == t[j];
          }
        }
      }
      if forall i, j :: 0 <= i < j < |s| ==> s[i] != s[j] {
        forall i, j | 0 <= i < j < |t| ensures t[i] != t[j] {
          assert s[i] == t[i] && s[j] == t[j];
        }
        forall i | 0 <= i < |t| ensures t[i] != s[|s| - 1] {
          assert s[i] == t[i];
        }
      }
    }
  }

  /**
   * `order` lists the keys, each once: `pos` gives each listed name its one position, so no
   * name can sit at two positions.
   */
  ghost predicate Ordered(order: seq<string>, keys: set<string>, pos: map<string, int>) {
    && (forall n :: n in keys <==> n in order)
    && (forall i :: 0 <= i < |order| ==> order[i] in pos && pos[order[i]] == i)
  }

  /** The insertion order never lists a name twice. */
  lemma OrderedDistinct(order: seq<string>, keys: set<string>, pos: map<string, int>)
    requires Ordered(order, keys, pos)
    ensures forall i, j :: 0 <= i < j < |order| ==> order[i] != order[j]
  {
  }

  lemma KeyedAdd(loggers: map<string, Logger>, repr: set<Logger>, lg: Logger)
    requires Keyed(loggers, repr) && lg.name !in loggers
    ensures Keyed(loggers[lg.name := lg], repr + {lg})
  {
  }

  lemma OrderedAdd(order: seq<string>, keys: set<string>, pos: map<string, int>, name: string)
    requires Ordered(order, keys, pos) && name !in keys
    ensures Ordered(order + [name], keys + {name}, pos[name := |order|])
  {
    assert forall i :: 0 <= i < |order| ==> (order + [name])[i] == order[i];
  }

  lemma RankedAdd(scope: set<Logger>, lg: Logger)
    requires Ranked(scope) && lg.parent == null
    ensures Ranked(scope + {lg})
  {
  }

  class Registry {
    var loggers: map<string, Logger>
    var order: seq<string>          // the map's insertion order
    var rootLogger: Logger?
    ghost var Repr: set<Logger>     // the loggers the map holds
    ghost var Pos: map<string, int>  // each name's position in `order`

    /** Names are keys, parent links go down in rank, the root reference is the "root" entry. */
    ghost predicate Valid()
      reads this, Repr`parent
    {
      && Keyed(loggers, Repr)
      && Ranked(Repr)
      && Ordered(order, loggers.Keys, Pos)
      && (rootLogger != null <==> "root" in loggers)
      && (rootLogger != null ==> loggers["root"] == rootLogger)
    }

    /** The logger a new `name` would be linked under, when it exists already: the parent, or the root. */
    ghost function KnownParent(name: string): Logger?
      reads this
    {
      if '.' !in name then rootLogger
      else if ParentName(name) in loggers then loggers[ParentName(name)]
      else null
    }

    /** The existing loggers whose child table `getLogger(name)` may change: none for a registered name. */
    ghost function Touched(name: string): set<Logger>
      reads this
    {
      if name in loggers then {} else AnchorSet(name, loggers)
    }

    /**
     * The loggers added since `before` (other than "root") are wired as their names dictate,
     * with `root` the root reference at that time, and entered in their parents' children.
     */
    ghost predicate WiredSince(before: set<Logger>, root: Logger?)
      requires Valid()
      reads this, Repr`parent, Repr`children
    {
      forall l {:trigger WiredLogger(l, root)} :: l in Repr && l !in before && l.name != "root" ==>
        WiredLogger(l, root) && (l.parent != null ==> Entered(l))
    }

    /** A wired and entered `lg` may join the loggers that `WiredSince` speaks about. */
    lemma WiredSinceOneMore(before: set<Logger>, prior: set<Logger>, root: Logger?, lg: Logger)
      requires Valid() && WiredSince(before, root) && before == prior + {lg}
      requires WiredLogger(lg, root) && (lg.parent != null ==> Entered(lg))
      ensures WiredSince(prior, root)
    {
    }

    constructor ()
      ensures Valid()
      ensures loggers == map[] && order == [] && rootLogger == null && Repr == {}
    {
      loggers := map[];
      order := [];
      Pos := map[];
      rootLogger := null;
      Repr := {};
    }

    /**
     * `getLogger(name)`: the existing logger, or a new one that is registered and then wired:
     * "root" becomes the root reference; a dotted name gets its parent (created first if
     * missing) and is entered in the parent's children under its last segment; a
     * single-segment name is linked to the root only if the root already exists.
     * Parent links of loggers that existed before are left alone.
     */
    method GetLogger(name: string) returns (lg: Logger)
      requires Valid()
      modifies this, Touched(name)`children, Touched(name)`childOrder
      ensures Valid() && WiredSince(old(Repr), old(rootLogger))
      ensures name in loggers && loggers[name] == lg && lg.name == name
      ensures forall n :: n in old(loggers) ==> n in loggers && loggers[n] == old(loggers[n])
      ensures order == old(order) + Materialised(name, old(loggers).Keys)
      ensures old(Repr) <= Repr && fresh(Repr - old(Repr))
      ensures forall l :: l in old(Repr) ==> l.parent == old(l.parent)
      ensures old(rootLogger) != null ==> rootLogger == old(rootLogger)
      ensures name in old(loggers) ==> lg == old(loggers[name]) && loggers == old(loggers) && Repr == old(Repr) && rootLogger == old(rootLogger)
      ensures name in old(loggers) ==> ChildrenKept(old(Repr), null)
      ensures name !in old(loggers) ==> fresh(lg) && Pristine(lg)
      ensures name == "root" ==> rootLogger == lg && lg.parent == null
      ensures name !in old(loggers) && name != "root" && '.' !in name ==>
        lg.parent == old(rootLogger) && (lg.parent != null ==> name in lg.parent.children && lg.parent.children[name] == lg)
      ensures name !in old(loggers) && name != "root" && '.' in name ==>
        ParentName(name) in loggers && lg.parent == loggers[ParentName(name)] &&
        LastSegment(name) in lg.parent.children && lg.parent.children[LastSegment(name)] == lg
      ensures name !in old(loggers) && ('.' in name ==> ParentName(name) in old(loggers)) && lg.parent != null ==>
        ChildSet(lg.parent, LastSegment(name), lg)
      decreases |name|, 3
    {
      if name in loggers {
        assert Materialised(name, loggers.Keys) == [];
        lg := loggers[name];
      } else if name == "root" {
        lg := Register(name);
        assert Materialised(name, old(loggers).Keys) == [name];
      } else {
        lg := Create(name);
      }
    }

    /** The creating half of `getLogger` below the root: register a new logger, then wire it. */
    method Create(name: string) returns (lg: Logger)
      requires Valid() && name !in loggers && name != "root"
      modifies this, AnchorSet(name, loggers)`children, AnchorSet(name, loggers)`childOrder
      ensures Valid() && WiredSince(old(Repr), old(rootLogger))
      ensures name in loggers && loggers[name] == lg && lg.name == name
      ensures forall n :: n in old(loggers) ==> n in loggers && loggers[n] == old(loggers[n])
      ensures order == old(order) + Materialised(name, old(loggers).Keys)
      ensures old(Repr) <= Repr && fresh(Repr - old(Repr))
      ensures old(rootLogger) != null ==> rootLogger == old(rootLogger)
      ensures fresh(lg) && Pristine(lg)
      ensures '.' !in name ==>
        lg.parent == old(rootLogger) && (lg.parent != null ==> name in lg.parent.children && lg.parent.children[name] == lg)
      ensures '.' in name ==>
        ParentName(name) in loggers && lg.parent == loggers[ParentName(name)] &&
        LastSegment(name) in lg.parent.children && lg.parent.children[LastSegment(name)] == lg
      ensures ('.' in name ==> ParentName(name) in old(loggers)) && lg.parent != null ==>
        ChildSet(lg.parent, LastSegment(name), lg)
      decreases |name|, 2
    {
      ghost var known, before, anchor := loggers.Keys, order, AnchorSet(name, loggers);
      lg := Register(name);
      AnchorAfterRegister(name, old(loggers), lg);
      ghost var parent := KnownParent(name);
      ghost var table, tableOrder := if parent != null then parent.children else map[], if parent != null then parent.childOrder else [];
      ghost var registered := Repr;
      SetupHierarchy(lg, name, anchor, known, before, parent, table, tableOrder);
      WiredSinceOneMore(registered, old(Repr), old(rootLogger), lg);
    }

    /**
     * `new Logger(name)` followed by `loggers.set(name, logger)`, and the root reference when
     * the name is "root"; nothing is wired yet.
     */
    method Register(name: string) returns (lg: Logger)
      requires Valid() && name !in loggers
      modifies this
      ensures Valid()
      ensures fresh(lg) && lg.name == name && Pristine(lg) && lg.parent == null
      ensures loggers == old(loggers)[name := lg] && order == old(order) + [name] && Repr == old(Repr) + {lg}
      ensures rootLogger == if name == "root" then lg else old(rootLogger)
    {
      lg := new Logger(name);
      KeyedAdd(loggers, Repr, lg);
      OrderedAdd(order, loggers.Keys, Pos, name);
      RankedAdd(Repr, lg);
      loggers := loggers[name := lg];
      Pos := Pos[name := |order|];
      order := order + [name];
      Repr := Repr + {lg};
      if name == "root" {
        rootLogger := lg;
      }
    }

    /**
     * `setupHierarchy(logger, name)` for a logger just registered under `name`; `known` and
     * `before` are the names and the order as they were before that registration.
     */
    method SetupHierarchy(lg: Logger, name: string, ghost anchor: set<Logger>, ghost known: set<string>, ghost before: seq<string>,
                          ghost parent: Logger?, ghost table: map<string, Logger>, ghost tableOrder: seq<string>)
      requires Valid()
      requires name in loggers && loggers[name] == lg && lg.parent == null && name != "root"
      requires anchor == AnchorSet(name, loggers)
      requires parent == KnownParent(name) && (parent != null ==> parent.children == table && parent.childOrder == tableOrder)
      requires Pristine(lg)
      requires name !in known && loggers.Keys == known + {name} && order == before + [name]
      modifies this, lg`parent, anchor`children, anchor`childOrder
      ensures Valid() && WiredSince(old(Repr), old(rootLogger))
      ensures WiredLogger(lg, old(rootLogger)) && (lg.parent != null ==> Entered(lg)) && Pristine(lg)
      ensures forall n :: n in old(loggers) ==> n in loggers && loggers[n] == old(loggers[n])
      ensures order == before + Materialised(name, known)
      ensures old(Repr) <= Repr && fresh(Repr - old(Repr))
      ensures old(rootLogger) != null ==> rootLogger == old(rootLogger)
      ensures '.' !in name ==>
        lg.parent == old(rootLogger) && (lg.parent != null ==> name in lg.parent.children && lg.parent.children[name] == lg)
      ensures '.' in name ==>
        ParentName(name) in loggers && lg.parent == loggers[ParentName(name)] &&
        LastSegment(name) in lg.parent.children && lg.parent.children[LastSegment(name)] == lg
      ensures ('.' in name ==> ParentName(name) in old(loggers)) && lg.parent != null ==>
        && lg.parent == parent
        && lg.parent.children == table[LastSegment(name) := lg]
        && lg.parent.childOrder == if LastSegment(name) in table then tableOrder else tableOrder + [LastSegment(name)]
      decreases |name|, 1
    {
      MaterialisedStep(name, known);
      if '.' in name {
        AttachToParent(lg, name, anchor, known);
        AppendAssoc(before, [name], Materialised(ParentName(name), known + {name}));
      } else if rootLogger != null {
        Link(lg, rootLogger, name, old(Repr), old(rootLogger));
      }
    }

    /**
     * The dotted branch of `setupHierarchy`: `getLogger` of the parent's name, then the new
     * logger is linked under its last segment.
     */
    method AttachToParent(lg: Logger, name: string, ghost anchor: set<Logger>, ghost known: set<string>)
      requires Valid() && '.' in name
      requires name in loggers && loggers[name] == lg && lg.parent == null
      requires anchor == AnchorSet(name, loggers)
      requires name !in known && loggers.Keys == known + {name}
      modifies this, lg`parent, anchor`children, anchor`childOrder
      ensures Valid() && WiredSince(old(Repr), old(rootLogger))
      ensures forall n :: n in old(loggers) ==> n in loggers && loggers[n] == old(loggers[n])
      ensures order == old(order) + Materialised(ParentName(name), known + {name})
      ensures old(Repr) <= Repr && fresh(Repr - old(Repr))
      ensures old(rootLogger) != null ==> rootLogger == old(rootLogger)
      ensures ParentName(name) in loggers && lg.parent == loggers[ParentName(name)] && lg.parent.name == ParentName(name)
      ensures Entered(lg)
      ensures ParentName(name) in old(loggers) ==> ChildrenKept(old(Repr), lg.parent) && ChildSet(lg.parent, LastSegment(name), lg)
      decreases |name|, 0
    {
      var parent := GetLogger(ParentName(name));
      NoKeyClash(loggers, Repr, old(Repr), old(rootLogger), name, lg, parent);
      Link(lg, parent, LastSegment(name), old(Repr), old(rootLogger));
    }

    /**
     * `logger.parent = parent; parent._children.set(key, logger)`. The loggers added since
     * `before` stay wired and entered, provided none of them is entered under `parent` as `key`.
     */
    method Link(lg: Logger, parent: Logger, key: string, ghost before: set<Logger>, ghost root: Logger?)
      requires Valid()
      requires lg in Repr && parent in Repr && lg.parent == null && Rank(parent.name) < Rank(lg.name)
      requires lg in before && WiredSince(before, root)
      requires forall l :: l in Repr && l !in before && l.name != "root" && l.parent == parent ==> LastSegment(l.name) != key
      modifies lg`parent, parent`children, parent`childOrder
      ensures Valid() && WiredSince(before, root)
      ensures lg.parent == parent && key in parent.children && parent.children[key] == lg
      ensures ChildSet(parent, key, lg)
    {
      lg.parent := parent;
      parent.LinkChild(key, lg);
      forall l | l in Repr && l !in before && l.name != "root"
        ensures WiredLogger(l, root) && (l.parent != null ==> Entered(l))
      {
        assert old(WiredLogger(l, root) && (l.parent != null ==> Entered(l)));
      }
    }

    /** The root reference; present exactly when a "root" logger is registered. */
    function GetRootLogger(): (r: Logger?)
      reads this, Repr`parent
      requires Valid()
      ensures r != null <==> "root" in loggers
      ensures r != null ==> r == loggers["root"] && r.name == "root" && r.parent == null
    {
      rootLogger
    }

    /** All registered loggers in insertion order. */
    function GetAllLoggers(): (r: seq<Logger>)
      reads this, Repr`parent
      requires Valid()
      ensures |r| == |order|
      ensures forall i :: 0 <= i < |r| ==> r[i] == loggers[order[i]] && r[i].name == order[i]
      ensures forall n :: n in loggers ==> loggers[n] in r
      ensures forall i, j :: 0 <= i < j < |r| ==> r[i] != r[j]
    {
      OrderedDistinct(order, loggers.Keys, Pos);
      var o, m := order, loggers;
      seq(|o|, i requires 0 <= i < |o| => m[o[i]])
    }

    /** `hasLogger(name)`: some registered logger carries the name, and it is in the insertion order. */
    predicate HasLogger(name: string): (b: bool)
      reads this, Repr`parent
      requires Valid()
      ensures b <==> exists l :: l in Repr && l.name == name
      ensures b <==> name in order
    {
      name in loggers
    }

    /** Drops every logger and the root reference. */
    method Clear()
      modifies this
      ensures Valid()
      ensures loggers == map[] && order == [] && rootLogger == null && Repr == {}
      ensures forall n :: !HasLogger(n)
    {
      loggers := map[];
      order := [];
      Pos := map[];
      rootLogger := null;
      Repr := {};
    }

    /**
     * `logger.getChild(suffix)`: `getLogger` of `<name>.<suffix>`, with the same promises; for a
     * suffix without '.' and a registered `parent`, a new child is wired directly under `parent`.
     */
    method GetChild(parent: Logger, suffix: string) returns (child: Logger)
      requires Valid()
      modifies this, Touched(ChildName(parent.name, suffix))`children, Touched(ChildName(parent.name, suffix))`childOrder
      ensures Valid() && WiredSince(old(Repr), old(rootLogger))
      ensures var n := ChildName(parent.name, suffix);
        n in loggers && loggers[n] == child && child.name == n
      ensures forall n :: n in old(loggers) ==> n in loggers && loggers[n] == old(loggers[n])
      ensures order == old(order) + Materialised(ChildName(parent.name, suffix), old(loggers).Keys)
      ensures old(Repr) <= Repr && fresh(Repr - old(Repr))
      ensures forall l :: l in old(Repr) ==> l.parent == old(l.parent)
      ensures old(rootLogger) != null ==> rootLogger == old(rootLogger)
      ensures var n := ChildName(parent.name, suffix);
        n in old(loggers) ==> child == old(loggers[n]) && loggers == old(loggers) && rootLogger == old(rootLogger) && ChildrenKept(old(Repr), null)
      ensures var n := ChildName(parent.name, suffix);
        n !in old(loggers) ==>
          fresh(child) && Pristine(child) &&
          ParentName(n) in loggers && child.parent == loggers[ParentName(n)] &&
          LastSegment(n) in child.parent.children && child.parent.children[LastSegment(n)] == child
      ensures var n := ChildName(parent.name, suffix);
        n !in old(loggers) && ParentName(n) in old(loggers) ==> ChildSet(child.parent, LastSegment(n), child)
      ensures '.' !in suffix && parent in old(Repr) && ChildName(parent.name, suffix) !in old(loggers) ==>
        child.parent == parent && ChildSet(parent, suffix, child)
    {
      child := GetLogger(ChildName(parent.name, suffix));
      if '.' !in suffix {
        ChildNameParts(parent.name, suffix);
      }
    }
  }
}



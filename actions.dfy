/**
 * The semantic actions of `performAction` (`JsonLinter.php:437-589`, the
 * same in `JsonParser.php:395-548`) as a function of the values of the
 * right-hand side, the typing of the value stack under which every action
 * is defined, and the duplicate-key policy of production 17.
 */
module Actions {
  import opened Wrappers
  import opened Grammar
  import opened Values

  /**
   * What `performAction` hands back to the driver: the value of the reduced
   * nonterminal, the root value (production 6 returns it), or a duplicate key
   * rejected under DETECT_KEY_CONFLICTS with its line.
   */
  datatype Effect = Continue(token: Value) | Finish(root: Value) | DuplicateKey(key: string, line: nat)

  predicate IsAssoc(flags: nat) { HasFlag(flags, PARSE_TO_ASSOC) }

  /** A JSON object as this run builds it: an associative array with PARSE_TO_ASSOC, a stdClass object otherwise. */
  predicate IsObject(v: Value, assoc: bool) {
    if assoc then v.Assoc? else v.Obj?
  }

  function NewObject(assoc: bool, ms: Members): (v: Value)
    ensures IsObject(v, assoc) && v.members == ms
  {
    if assoc then Assoc(ms) else Obj(ms)
  }

  /** A member as production 15 builds it: the two-element array `[key, value]`. */
  predicate IsPair(v: Value) {
    v.Arr? && |v.items| == 2 && v.items[0].Str?
  }

  /** The value each grammar symbol carries on the value stack. */
  predicate Fits(symbol: int, v: Value, assoc: bool) {
    if IsTerminal(symbol) || symbol == END then v.Str?
    else if symbol == JSON_STRING then v.Str?
    else if symbol == JSON_NUMBER then v.Number?
    else if symbol == JSON_NULL_LITERAL then v == Null
    else if symbol == JSON_BOOLEAN_LITERAL then v.Bool?
    else if symbol == JSON_OBJECT || symbol == JSON_MEMBER_LIST then IsObject(v, assoc) && WellFormed(v, assoc)
    else if symbol == JSON_ARRAY || symbol == JSON_ELEMENT_LIST then v.Arr? && WellFormed(v, assoc)
    else if symbol == JSON_MEMBER then IsPair(v) && WellFormed(v.items[1], assoc)
    else if symbol == JSON_VALUE then WellFormed(v, assoc)
    else false
  }

  predicate FitsAll(syms: seq<int>, vals: seq<Value>, assoc: bool) {
    |syms| == |vals| && forall i :: 0 <= i < |syms| ==> Fits(syms[i], vals[i], assoc)
  }

  /** The first member's key: an empty key is stored as `_empty_` (`JsonLinter.php:493`). */
  function EmptyAlias(key: string): (k: string)
    ensures k != ""
    ensures key != "" ==> k == key
  {
    if key == "" then "_empty_" else key
  }

  /**
   * The key production 17 looks up and stores under before any renaming:
   * the raw key for an associative array, the aliased key for an object
   * (`JsonLinter.php:510`, `538`).
   */
  function LookupKey(key: string, assoc: bool): string {
    if assoc then key else EmptyAlias(key)
  }

  /**
   * Production 17, `JSONMemberList , JSONMember`: add the member to the
   * list. With DETECT_KEY_CONFLICTS a key that is set is rejected; otherwise,
   * with ALLOW_DUPLICATE_KEYS, it is stored as `key.N` for the first free N;
   * otherwise the assignment overwrites.
   */
  function AddMember(list: Value, pair: Value, flags: nat, yLineNo: nat): (e: Effect)
    requires list.Obj? || list.Assoc?
    requires IsPair(pair)
  {
    var key := pair.items[0].s;
    var k := LookupKey(key, IsAssoc(flags));
    if HasFlag(flags, DETECT_KEY_CONFLICTS) && IsSet(list.members, k) then DuplicateKey(key, yLineNo + 1)
    else Continue(list.(members := Put(list.members, StoredKey(list.members, k, flags), pair.items[1])))
  }

  /** The key a member is assigned under: renamed to `key.N` when ALLOW_DUPLICATE_KEYS is set and the key is set. */
  function StoredKey(ms: Members, k: string, flags: nat): string {
    if HasFlag(flags, ALLOW_DUPLICATE_KEYS) && IsSet(ms, k) then Suffixed(k, FirstFree(ms, k, 1)) else k
  }

  /**
   * `performAction` for production p, given the flags, the text and line of
   * the last shifted token, and the values of the right-hand side.
   */
  function Action(p: nat, flags: nat, yText: string, yLineNo: nat, args: seq<Value>): Effect
    requires IsProduction(p) && FitsAll(Rhs(p), args, IsAssoc(flags))
  {
    var assoc := IsAssoc(flags);
    if p == 1 then Continue(Str(Interpolate(yText)))
    else if p == 2 then Continue(Number(KindOf(yText), yText))
    else if p == 3 then Continue(Null)
    else if p == 4 then Continue(Bool(true))
    else if p == 5 then Continue(Bool(false))
    else if p == 6 then Finish(args[0])
    else if p == 13 then Continue(NewObject(assoc, []))
    else if p == 14 then Continue(args[1])
    else if p == 15 then Continue(Arr([args[0], args[2]]))
    else if p == 16 then Continue(NewObject(assoc, [(EmptyAlias(args[0].items[0].s), args[0].items[1])]))
    else if p == 17 then AddMember(args[0], args[2], flags, yLineNo)
    else if p == 18 then Continue(Arr([]))
    else if p == 19 then Continue(args[1])
    else if p == 20 then Continue(Arr([args[0]]))
    else if p == 21 then Continue(Arr(args[0].items + [args[2]]))
    else Continue(args[0])
  }

  // ---------------------------------------------------------------------
  // Typing

  /** Adding a member keeps an object well formed: keys stay unique and every value stays well formed. */
  lemma AddMemberFits(list: Value, pair: Value, flags: nat, yLineNo: nat)
    requires IsObject(list, IsAssoc(flags)) && WellFormed(list, IsAssoc(flags))
    requires IsPair(pair) && WellFormed(pair.items[1], IsAssoc(flags))
    ensures AddMember(list, pair, flags, yLineNo).Continue? ==>
              var v := AddMember(list, pair, flags, yLineNo).token;
              IsObject(v, IsAssoc(flags)) && WellFormed(v, IsAssoc(flags))
  {
    var assoc := IsAssoc(flags);
    var ms := list.members;
    var stored := StoredKey(ms, LookupKey(pair.items[0].s, assoc), flags);
    var r := Put(ms, stored, pair.items[1]);
    ObjectWellFormed(list, assoc);
    PutKeepsUnique(ms, stored, pair.items[1]);
    PutWellFormed(ms, stored, pair.items[1], assoc);
    var e := AddMember(list, pair, flags, yLineNo);
    if e.Continue? {
      assert e.token == NewObject(assoc, r);
      ObjectWellFormed(NewObject(assoc, r), assoc);
    }
  }

  /** An object is well formed when its keys are unique and its values are well formed. */
  lemma ObjectWellFormed(v: Value, assoc: bool)
    requires IsObject(v, assoc)
    ensures WellFormed(v, assoc) <==> UniqueKeys(v.members) && forall i :: 0 <= i < |v.members| ==> WellFormed(v.members[i].1, assoc)
  {
  }

  /**
   * What an action may hand back for production p: a value that fits the
   * left-hand side, the well-formed root for production 6 and only there,
   * or a rejected duplicate key, only from production 17 under
   * DETECT_KEY_CONFLICTS.
   */
  predicate TypedEffect(p: nat, flags: nat, e: Effect)
    requires IsProduction(p)
  {
    && (e.Continue? ==> p != 6 && Fits(Lhs(p), e.token, IsAssoc(flags)))
    && (e.Finish? <==> p == 6)
    && (e.Finish? ==> WellFormed(e.root, IsAssoc(flags)))
    && (e.DuplicateKey? ==> p == 17 && HasFlag(flags, DETECT_KEY_CONFLICTS))
  }

  /** Only production 17 rejects, and it reports the line after the last shifted token's line. */
  lemma RejectLine(p: nat, flags: nat, yText: string, yLineNo: nat, args: seq<Value>)
    requires IsProduction(p) && FitsAll(Rhs(p), args, IsAssoc(flags))
    ensures Action(p, flags, yText, yLineNo, args).DuplicateKey? ==>
              && p == 17
              && Action(p, flags, yText, yLineNo, args) == DuplicateKey(args[2].items[0].s, yLineNo + 1)
  {
    ActionFits(p, flags, yText, yLineNo, args);
  }

  /** Every action keeps the value stack typed: from values that fit the right-hand side it builds what fits the left-hand side. */
  lemma ActionFits(p: nat, flags: nat, yText: string, yLineNo: nat, args: seq<Value>)
    requires IsProduction(p) && FitsAll(Rhs(p), args, IsAssoc(flags))
    ensures TypedEffect(p, flags, Action(p, flags, yText, yLineNo, args))
  {
    if p == 17 {
      MemberActionFits(flags, yText, yLineNo, args);
    } else if p == 13 || p == 14 || p == 16 {
      ObjectActionFits(p, flags, yText, yLineNo, args);
    } else if 15 <= p {
      ArrayActionFits(p, flags, yText, yLineNo, args);
    } else {
      ScalarActionFits(p, flags, yText, yLineNo, args);
    }
  }

  lemma MemberActionFits(flags: nat, yText: string, yLineNo: nat, args: seq<Value>)
    requires FitsAll(Rhs(17), args, IsAssoc(flags))
    ensures TypedEffect(17, flags, Action(17, flags, yText, yLineNo, args))
  {
    var assoc := IsAssoc(flags);
    assert Rhs(17)[0] == JSON_MEMBER_LIST && Rhs(17)[2] == JSON_MEMBER && Lhs(17) == JSON_MEMBER_LIST;
    assert Fits(JSON_MEMBER_LIST, args[0], assoc) && Fits(JSON_MEMBER, args[2], assoc);
    AddMemberFits(args[0], args[2], flags, yLineNo);
    assert Action(17, flags, yText, yLineNo, args) == AddMember(args[0], args[2], flags, yLineNo);
  }

  lemma ObjectActionFits(p: nat, flags: nat, yText: string, yLineNo: nat, args: seq<Value>)
    requires p == 13 || p == 14 || p == 16
    requires FitsAll(Rhs(p), args, IsAssoc(flags))
    ensures TypedEffect(p, flags, Action(p, flags, yText, yLineNo, args))
  {
    var assoc := IsAssoc(flags);
    if p == 14 {
      assert Fits(Rhs(p)[1], args[1], assoc);
    } else if p == 16 {
      assert Fits(Rhs(p)[0], args[0], assoc);
      var ms := [(EmptyAlias(args[0].items[0].s), args[0].items[1])];
      ObjectWellFormed(NewObject(assoc, ms), assoc);
    } else {
      ObjectWellFormed(NewObject(assoc, []), assoc);
    }
  }

  lemma ArrayActionFits(p: nat, flags: nat, yText: string, yLineNo: nat, args: seq<Value>)
    requires 15 <= p <= 21 && p != 16 && p != 17
    requires FitsAll(Rhs(p), args, IsAssoc(flags))
    ensures TypedEffect(p, flags, Action(p, flags, yText, yLineNo, args))
  {
    var assoc := IsAssoc(flags);
    if p == 15 {
      assert Fits(Rhs(p)[0], args[0], assoc) && Fits(Rhs(p)[2], args[2], assoc);
    } else if p == 19 {
      assert Fits(Rhs(p)[1], args[1], assoc);
    } else if p == 20 {
      assert Fits(Rhs(p)[0], args[0], assoc);
    } else if p == 21 {
      assert Fits(Rhs(p)[0], args[0], assoc) && Fits(Rhs(p)[2], args[2], assoc);
      var items := args[0].items + [args[2]];
      assert forall i :: 0 <= i < |items| ==> WellFormed(items[i], assoc) by {
        assert forall i :: 0 <= i < |args[0].items| ==> WellFormed(args[0].items[i], assoc);
      }
    }
  }

  lemma ScalarActionFits(p: nat, flags: nat, yText: string, yLineNo: nat, args: seq<Value>)
    requires 1 <= p <= 12
    requires FitsAll(Rhs(p), args, IsAssoc(flags))
    ensures TypedEffect(p, flags, Action(p, flags, yText, yLineNo, args))
  {
    assert Fits(Rhs(p)[0], args[0], IsAssoc(flags));
  }

  // ---------------------------------------------------------------------
  // The duplicate-key policy of production 17

  /**
   * DETECT_KEY_CONFLICTS wins over ALLOW_DUPLICATE_KEYS: the member is
   * rejected exactly when its key is set (null values count as absent),
   * with the raw key and the line after the last shifted token's line.
   */
  lemma DetectRejectsSetKeys(list: Value, pair: Value, flags: nat, yLineNo: nat)
    requires list.Obj? || list.Assoc?
    requires IsPair(pair) && HasFlag(flags, DETECT_KEY_CONFLICTS)
    ensures var k := LookupKey(pair.items[0].s, IsAssoc(flags));
            AddMember(list, pair, flags, yLineNo).DuplicateKey? <==> IsSet(list.members, k)
    ensures AddMember(list, pair, flags, yLineNo).DuplicateKey? ==>
              AddMember(list, pair, flags, yLineNo) == DuplicateKey(pair.items[0].s, yLineNo + 1)
  {
  }

  /**
   * ALLOW_DUPLICATE_KEYS without DETECT_KEY_CONFLICTS: a key that is set
   * keeps its value and the new value goes last under `key.N`, where N is
   * the least counter from 1 whose key is not set; every other member is
   * unchanged.
   */
  lemma AllowRenamesSetKeys(list: Value, pair: Value, flags: nat, yLineNo: nat)
    requires list.Obj? || list.Assoc?
    requires IsPair(pair) && UniqueKeys(list.members)
    requires !HasFlag(flags, DETECT_KEY_CONFLICTS) && HasFlag(flags, ALLOW_DUPLICATE_KEYS)
    requires IsSet(list.members, LookupKey(pair.items[0].s, IsAssoc(flags)))
    ensures var k := LookupKey(pair.items[0].s, IsAssoc(flags));
            var n := FirstFree(list.members, k, 1);
            var e := AddMember(list, pair, flags, yLineNo);
            && e.Continue?
            && 1 <= n && !IsSet(list.members, Suffixed(k, n))
            && (forall j :: 1 <= j < n ==> IsSet(list.members, Suffixed(k, j)))
            && Get(e.token.members, Suffixed(k, n)) == Some(pair.items[1])
            && (forall j :: j != Suffixed(k, n) ==> Get(e.token.members, j) == Get(list.members, j))
            && Get(e.token.members, k) == Get(list.members, k)
  {
    var k := LookupKey(pair.items[0].s, IsAssoc(flags));
    var n := FirstFree(list.members, k, 1);
    SuffixedIsNotKey(k, n);
  }

  /** `key.N` differs from `key`. */
  lemma SuffixedIsNotKey(k: string, n: nat)
    ensures Suffixed(k, n) != k
  {
    assert |Suffixed(k, n)| > |k|;
  }

  /**
   * With neither policy flag, or when the key is not set, the member is
   * assigned under its key: a later duplicate overwrites the earlier value
   * in place, and a new key goes last.
   */
  lemma PlainAssignment(list: Value, pair: Value, flags: nat, yLineNo: nat)
    requires list.Obj? || list.Assoc?
    requires IsPair(pair)
    requires var k := LookupKey(pair.items[0].s, IsAssoc(flags));
             !IsSet(list.members, k) || (!HasFlag(flags, DETECT_KEY_CONFLICTS) && !HasFlag(flags, ALLOW_DUPLICATE_KEYS))
    ensures var k := LookupKey(pair.items[0].s, IsAssoc(flags));
            var e := AddMember(list, pair, flags, yLineNo);
            && e.Continue?
            && Get(e.token.members, k) == Some(pair.items[1])
            && (forall j :: j != k ==> Get(e.token.members, j) == Get(list.members, j))
            && (k in Keys(list.members) ==> Keys(e.token.members) == Keys(list.members))
            && (k !in Keys(list.members) ==> e.token.members == list.members + [(k, pair.items[1])])
  {
    var k := LookupKey(pair.items[0].s, IsAssoc(flags));
    if k !in Keys(list.members) {
      PutAppends(list.members, k, pair.items[1]);
    }
  }

  /** An empty key is `_empty_` in the first member, and in later members of an object, but stays empty in later members of an associative array. */
  lemma EmptyKeyAliasing(flags: nat)
    ensures EmptyAlias("") == "_empty_"
    ensures LookupKey("", IsAssoc(flags)) == (if IsAssoc(flags) then "" else "_empty_")
  {
  }

  // ---------------------------------------------------------------------
  // The fixtures of `tests/JsonLintTest.php:303-365`

  function Member(key: string, v: Value): Value {
    Arr([Str(key), v])
  }

  /** `{"a":"b", "a":"c"}` with DETECT_KEY_CONFLICTS is rejected at the second "a", on line 1. */
  lemma DetectFixture()
    ensures var first := Action(16, DETECT_KEY_CONFLICTS, "", 0, [Member("a", Str("b"))]);
            && first == Continue(Obj([("a", Str("b"))]))
            && AddMember(first.token, Member("a", Str("c")), DETECT_KEY_CONFLICTS, 0) == DuplicateKey("a", 1)
  {
    var ms: Members := [("a", Str("b"))];
    assert ms[0].0 == "a" && ms[0].1 != Null;
  }

  /** `{"":"b", "_empty_":"a"}` with DETECT_KEY_CONFLICTS: the empty key became `_empty_`, so the second key collides. */
  lemma DetectEmptyFixture()
    ensures var first := Action(16, DETECT_KEY_CONFLICTS, "", 1, [Member("", Str("b"))]);
            && first == Continue(Obj([("_empty_", Str("b"))]))
            && AddMember(first.token, Member("_empty_", Str("a")), DETECT_KEY_CONFLICTS, 2) == DuplicateKey("_empty_", 3)
  {
    var ms: Members := [("_empty_", Str("b"))];
    assert ms[0].0 == "_empty_" && ms[0].1 != Null;
  }

  /** `{"a":"b", "a":"c", "a":"d"}` with ALLOW_DUPLICATE_KEYS: the second "a" is stored as a.1, ... */
  lemma AllowFixtureSecond()
    ensures AddMember(Obj([("a", Str("b"))]), Member("a", Str("c")), ALLOW_DUPLICATE_KEYS, 0)
            == Continue(Obj([("a", Str("b")), ("a.1", Str("c"))]))
  {
    var m1: Members := [("a", Str("b"))];
    SecondKeyIsFree();
    assert "a.1" !in Keys(m1) by {
      assert Keys(m1)[0] == "a";
    }
    AllowAppendsFresh(m1, "a", Str("c"), 0, "a.1");
    assert m1 + [("a.1", Str("c"))] == [("a", Str("b")), ("a.1", Str("c"))];
  }

  /** With a taken, the first free counter for a is 1. */
  lemma SecondKeyIsFree()
    ensures StoredKey([("a", Str("b"))], "a", ALLOW_DUPLICATE_KEYS) == "a.1"
  {
    var m1: Members := [("a", Str("b"))];
    assert Suffixed("a", 1) == "a.1";
    assert m1[0].0 == "a" && m1[0].1 != Null;
    assert !IsSet(m1, "a.1");
    assert FirstFree(m1, "a", 1) == 1;
  }

  /** With a and a.1 taken, the next free counter for a is 2. */
  lemma ThirdKeyIsFree()
    ensures StoredKey([("a", Str("b")), ("a.1", Str("c"))], "a", ALLOW_DUPLICATE_KEYS) == "a.2"
    ensures "a.2" !in Keys([("a", Str("b")), ("a.1", Str("c"))])
  {
    var m2: Members := [("a", Str("b")), ("a.1", Str("c"))];
    assert Suffixed("a", 1) == "a.1" && Suffixed("a", 2) == "a.2";
    assert m2[0].0 == "a" && m2[0].1 != Null;
    assert m2[1].0 == "a.1" && m2[1].1 != Null;
    assert !IsSet(m2, "a.2");
    assert FirstFree(m2, "a", 2) == 2;
    assert FirstFree(m2, "a", 1) == 2;
    assert Keys(m2)[0] == "a" && Keys(m2)[1] == "a.1";
  }

  /** Under ALLOW_DUPLICATE_KEYS alone, a member of an object is put under its stored key. */
  lemma AllowStores(ms: Members, key: string, v: Value, yLineNo: nat)
    requires key != ""
    ensures AddMember(Obj(ms), Member(key, v), ALLOW_DUPLICATE_KEYS, yLineNo)
            == Continue(Obj(Put(ms, StoredKey(ms, key, ALLOW_DUPLICATE_KEYS), v)))
  {
    assert !IsAssoc(ALLOW_DUPLICATE_KEYS) && !HasFlag(ALLOW_DUPLICATE_KEYS, DETECT_KEY_CONFLICTS);
  }

  /** Under ALLOW_DUPLICATE_KEYS alone, a member whose stored key is new is appended under that key. */
  lemma AllowAppendsFresh(ms: Members, key: string, v: Value, yLineNo: nat, stored: string)
    requires key != "" && StoredKey(ms, key, ALLOW_DUPLICATE_KEYS) == stored && stored !in Keys(ms)
    ensures AddMember(Obj(ms), Member(key, v), ALLOW_DUPLICATE_KEYS, yLineNo) == Continue(Obj(ms + [(stored, v)]))
  {
    AllowStores(ms, key, v, yLineNo);
    PutAppends(ms, stored, v);
  }

  /** ... and the third as a.2, the first counter whose key is free. */
  lemma AllowFixtureThird()
    ensures AddMember(Obj([("a", Str("b")), ("a.1", Str("c"))]), Member("a", Str("d")), ALLOW_DUPLICATE_KEYS, 0)
            == Continue(Obj([("a", Str("b")), ("a.1", Str("c")), ("a.2", Str("d"))]))
  {
    var m2: Members := [("a", Str("b")), ("a.1", Str("c"))];
    ThirdKeyIsFree();
    AllowAppendsFresh(m2, "a", Str("d"), 0, "a.2");
    assert m2 + [("a.2", Str("d"))] == [("a", Str("b")), ("a.1", Str("c")), ("a.2", Str("d"))];
  }

}

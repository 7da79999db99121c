/** The JSON hardening rules (internal/jsonguard/jsonguard.go): nesting and
    duplicate members over the token stream, surrogate escapes over the bytes. */
module JsonGuard {
  import opened Wrappers

  const MAX_DEPTH := 64

  /** Documents and their tokens. */

  datatype Scalar = Text(text: string) | Other

  datatype Json = Leaf(value: Scalar) | Array(items: seq<Json>) | Object(members: seq<Member>)

  datatype Member = Member(name: string, value: Json)

  datatype Token = Open(isObject: bool) | Close(isObject: bool) | Single(value: Scalar)

  function Tokens(v: Json): seq<Token>
    decreases v, 0
  {
    match v
    case Leaf(value) => [Single(value)]
    case Array(items) => [Open(false)] + ItemTokens(items) + [Close(false)]
    case Object(members) => [Open(true)] + MemberTokens(members) + [Close(true)]
  }

  function ItemTokens(items: seq<Json>): seq<Token>
    decreases items, 1
  {
    if items == [] then [] else Tokens(items[0]) + ItemTokens(items[1..])
  }

  function MemberTokens(members: seq<Member>): seq<Token>
    decreases members, 1
  {
    if members == [] then []
    else [Single(Text(members[0].name))] + Tokens(members[0].value) + MemberTokens(members[1..])
  }

  // Containers nest at most `limit` deep.
  predicate NestsWithin(v: Json, limit: int)
  {
    match v
    case Leaf(_) => true
    case Array(items) => limit >= 1 && forall i | 0 <= i < |items| :: NestsWithin(items[i], limit - 1)
    case Object(members) => limit >= 1 && forall i | 0 <= i < |members| :: NestsWithin(members[i].value, limit - 1)
  }

  // No object, at any depth, repeats a member name.
  predicate NoDuplicates(v: Json)
  {
    match v
    case Leaf(_) => true
    case Array(items) => forall i | 0 <= i < |items| :: NoDuplicates(items[i])
    case Object(members) =>
      && (forall i | 0 <= i < |members| :: NoDuplicates(members[i].value))
      && (forall i, j | 0 <= i < j < |members| :: members[i].name != members[j].name)
  }

  /** The walk. */

  datatype Frame = Frame(isObject: bool, keys: set<string>, wantKey: bool)

  type Stack = seq<Frame>

  // A value slot of the innermost container has been filled.
  function Consumed(stack: Stack): Stack
  {
    if stack == [] then stack
    else
      var top := stack[|stack| - 1];
      if top.isObject then stack[..|stack| - 1] + [top.(wantKey := true)] else stack
  }

  predicate WantsKey(stack: Stack) { stack != [] && stack[|stack| - 1].isObject && stack[|stack| - 1].wantKey }

  function Push(stack: Stack, isObject: bool): Stack { Consumed(stack) + [Frame(isObject, {}, isObject)] }

  // The stack after one token, or a refusal.
  function Step(stack: Stack, t: Token): Option<Stack>
  {
    match t
    case Open(isObject) => if |stack| + 1 > MAX_DEPTH then None else Some(Push(stack, isObject))
    case Close(_) => if stack == [] then None else Some(stack[..|stack| - 1])
    case Single(value) =>
      if !WantsKey(stack) then Some(Consumed(stack))
      else if !value.Text? then None
      else
        var top := stack[|stack| - 1];
        if value.text in top.keys then None
        else Some(stack[..|stack| - 1] + [Frame(true, top.keys + {value.text}, false)])
  }

  function Walk(stack: Stack, tokens: seq<Token>): Option<Stack>
    decreases |tokens|
  {
    if tokens == [] then Some(stack)
    else match Step(stack, tokens[0])
      case None => None
      case Some(next) => Walk(next, tokens[1..])
  }

  method CheckStructure(tokens: seq<Token>) returns (ok: bool)
    ensures ok <==> tokens != [] && Walk([], tokens) == Some([])
  {
    var stack: Stack := [];
    for i := 0 to |tokens|
      invariant Walk([], tokens) == Walk(stack, tokens[i..])
    {
      assert tokens[i..][1..] == tokens[i + 1..];
      var next := Step(stack, tokens[i]);
      if next.None? { return false; }
      stack := next.value;
    }
    return tokens != [] && stack == [];
  }

  /** The walk is exact. */

  predicate Allowed(v: Json, depth: int) { NestsWithin(v, MAX_DEPTH - depth) && NoDuplicates(v) }

  lemma {:induction false} WalkAppend(stack: Stack, a: seq<Token>, b: seq<Token>)
    ensures Walk(stack, a + b) == match Walk(stack, a) case None => None case Some(s) => Walk(s, b)
    decreases |a|
  {
    if a == [] {
      assert a + b == b;
    } else {
      assert (a + b)[0] == a[0] && (a + b)[1..] == a[1..] + b;
      if Step(stack, a[0]).Some? { WalkAppend(Step(stack, a[0]).value, a[1..], b); }
    }
  }

  lemma WalkOne(stack: Stack, t: Token)
    ensures Walk(stack, [t]) == Step(stack, t)
  {
  }

  // Where a value is expected, its tokens are accepted exactly when it obeys both
  // rules, and leave the slot filled.
  lemma {:induction false} WalkValue(stack: Stack, v: Json)
    requires !WantsKey(stack)
    ensures Walk(stack, Tokens(v)) == if Allowed(v, |stack|) then Some(Consumed(stack)) else None
    decreases v, 0
  {
    match v
    case Leaf(value) =>
      WalkOne(stack, Single(value));
    case Array(items) =>
      hide NestsWithin, NoDuplicates, Walk, Step;
      WalkContainer(stack, false, ItemTokens(items));
      AllowedArray(items, |stack|);
      if |stack| + 1 <= MAX_DEPTH {
        WalkItems(Push(stack, false), items);
        Popped(stack, Frame(false, {}, false));
      }
    case Object(members) =>
      hide NestsWithin, NoDuplicates, Walk, Step;
      WalkContainer(stack, true, MemberTokens(members));
      AllowedObject(members, |stack|);
      if |stack| + 1 <= MAX_DEPTH {
        WalkMembers(Consumed(stack), {}, members);
        Popped(stack, Frame(true, {} + NamesOf(members), true));
      }
  }

  lemma Popped(stack: Stack, f: Frame)
    ensures var s := Consumed(stack) + [f]; |s| == |stack| + 1 && s[|stack|] == f && s[..|stack|] == Consumed(stack)
  {
  }

  lemma AllowedArray(items: seq<Json>, depth: nat)
    ensures Allowed(Array(items), depth) <==>
            depth + 1 <= MAX_DEPTH && forall i | 0 <= i < |items| :: Allowed(items[i], depth + 1)
  {
  }

  lemma AllowedObject(members: seq<Member>, depth: nat)
    ensures Allowed(Object(members), depth) <==>
            && depth + 1 <= MAX_DEPTH && FreshNames({}, members)
            && forall i | 0 <= i < |members| :: Allowed(members[i].value, depth + 1)
  {
  }

  lemma WalkContainer(stack: Stack, isObject: bool, inner: seq<Token>)
    ensures Walk(stack, [Open(isObject)] + inner + [Close(isObject)]) ==
            if |stack| + 1 > MAX_DEPTH then None
            else match Walk(Push(stack, isObject), inner)
              case None => None
              case Some(s) => if s == [] then None else Some(s[..|s| - 1])
  {
    WalkAppend(stack, [Open(isObject)] + inner, [Close(isObject)]);
    WalkAppend(stack, [Open(isObject)], inner);
    WalkOne(stack, Open(isObject));
    forall s: Stack
      ensures Walk(s, [Close(isObject)]) == Step(s, Close(isObject))
    {
      WalkOne(s, Close(isObject));
    }
  }

  lemma {:induction false} WalkItems(stack: Stack, items: seq<Json>)
    requires stack != [] && !stack[|stack| - 1].isObject
    ensures Walk(stack, ItemTokens(items)) ==
            if forall i | 0 <= i < |items| :: Allowed(items[i], |stack|) then Some(stack) else None
    decreases items, 1
  {
    if items != [] {
      WalkAppend(stack, Tokens(items[0]), ItemTokens(items[1..]));
      WalkValue(stack, items[0]);
      WalkItems(stack, items[1..]);
      assert items == [items[0]] + items[1..];
    }
  }

  predicate FreshNames(keys: set<string>, members: seq<Member>)
  {
    && (forall i | 0 <= i < |members| :: members[i].name !in keys)
    && (forall i, j | 0 <= i < j < |members| :: members[i].name != members[j].name)
  }

  function NamesOf(members: seq<Member>): set<string> { set m | m in members :: m.name }

  lemma FreshNamesCons(keys: set<string>, members: seq<Member>)
    requires members != []
    ensures FreshNames(keys, members) <==>
            members[0].name !in keys && FreshNames(keys + {members[0].name}, members[1..])
    ensures NamesOf(members) == {members[0].name} + NamesOf(members[1..])
  {
    var rest := members[1..];
    assert members == [members[0]] + rest;
    if members[0].name !in keys && FreshNames(keys + {members[0].name}, rest) {
      forall i, j | 0 <= i < j < |members|
        ensures members[i].name != members[j].name
      {
        assert members[j] == rest[j - 1];
        assert i > 0 ==> members[i] == rest[i - 1];
      }
    }
  }

  lemma {:induction false} WalkMembers(below: Stack, keys: set<string>, members: seq<Member>)
    ensures Walk(below + [Frame(true, keys, true)], MemberTokens(members)) ==
            if FreshNames(keys, members) && forall i | 0 <= i < |members| :: Allowed(members[i].value, |below| + 1)
            then Some(below + [Frame(true, keys + NamesOf(members), true)]) else None
    decreases members, 1
  {
    var stack := below + [Frame(true, keys, true)];
    if members == [] {
      assert keys + NamesOf(members) == keys;
    } else {
      var m, rest := members[0], members[1..];
      var named := below + [Frame(true, keys + {m.name}, false)];
      WalkAppend(stack, [Single(Text(m.name))] + Tokens(m.value), MemberTokens(rest));
      WalkAppend(stack, [Single(Text(m.name))], Tokens(m.value));
      WalkOne(stack, Single(Text(m.name)));
      assert stack[..|stack| - 1] == below && named[..|named| - 1] == below;
      FreshNamesCons(keys, members);
      assert members == [m] + rest;
      WalkValue(named, m.value);
      assert Consumed(named) == below + [Frame(true, keys + {m.name}, true)];
      WalkMembers(below, keys + {m.name}, rest);
      assert keys + {m.name} + NamesOf(rest) == keys + NamesOf(members);
    }
  }

  // A stream of whole values is accepted exactly when there is one and each nests
  // at most 64 deep with no object repeating a member.
  lemma StructureIsExact(values: seq<Json>)
    ensures ItemTokens(values) != [] && Walk([], ItemTokens(values)) == Some([]) <==>
            values != [] && forall i | 0 <= i < |values| :: Allowed(values[i], 0)
  {
    WalkDocument(values);
    if values != [] { SomeTokens(values[0]); }
  }

  lemma SomeTokens(v: Json)
    ensures Tokens(v) != []
  {
  }

  lemma {:induction false} WalkDocument(values: seq<Json>)
    ensures Walk([], ItemTokens(values)) ==
            if forall i | 0 <= i < |values| :: Allowed(values[i], 0) then Some([]) else None
    decreases |values|
  {
    if values != [] {
      WalkAppend([], Tokens(values[0]), ItemTokens(values[1..]));
      WalkValue([], values[0]);
      WalkDocument(values[1..]);
      assert values == [values[0]] + values[1..];
    }
  }

  /** A document that simply stops is refused. */

  function Height(tokens: seq<Token>): int
  {
    if tokens == [] then 0
    else (match tokens[0] case Open(_) => 1 case Close(_) => -1 case Single(_) => 0) + Height(tokens[1..])
  }

  lemma {:induction false} HeightAppend(a: seq<Token>, b: seq<Token>)
    ensures Height(a + b) == Height(a) + Height(b)
  {
    if a == [] {
      assert a + b == b;
    } else {
      assert (a + b)[1..] == a[1..] + b;
      HeightAppend(a[1..], b);
    }
  }

  lemma {:induction false} WalkHeight(stack: Stack, tokens: seq<Token>)
    requires Walk(stack, tokens).Some?
    ensures |Walk(stack, tokens).value| == |stack| + Height(tokens)
    decreases |tokens|
  {
    if tokens != [] {
      WalkHeight(Step(stack, tokens[0]).value, tokens[1..]);
    }
  }

  // Prefixes of a balanced text never dip; only the whole and the empty one of a
  // single value come back to zero.
  ghost predicate NeverDips(tokens: seq<Token>)
  {
    Height(tokens) == 0 && forall k | 0 <= k <= |tokens| :: Height(tokens[..k]) >= 0
  }

  lemma NeverDipsAppend(a: seq<Token>, b: seq<Token>)
    requires NeverDips(a) && NeverDips(b)
    ensures NeverDips(a + b)
  {
    HeightAppend(a, b);
    forall k | 0 <= k <= |a + b|
      ensures Height((a + b)[..k]) >= 0
    {
      if k <= |a| {
        assert (a + b)[..k] == a[..k];
      } else {
        assert (a + b)[..k] == a + b[..k - |a|];
        HeightAppend(a, b[..k - |a|]);
      }
    }
  }

  lemma {:induction false} ValueHeights(v: Json, k: nat)
    requires 0 < k <= |Tokens(v)|
    ensures Height(Tokens(v)[..k]) >= (if k < |Tokens(v)| then 1 else 0) && Height(Tokens(v)) == 0
    decreases v, 0
  {
    match v
    case Leaf(value) =>
      assert Tokens(v)[..k] == [Single(value)];
    case Array(items) =>
      ItemHeights(items);
      ContainerHeights(false, ItemTokens(items), k);
    case Object(members) =>
      MemberHeights(members);
      ContainerHeights(true, MemberTokens(members), k);
  }

  lemma ContainerHeights(isObject: bool, inner: seq<Token>, k: nat)
    requires NeverDips(inner) && 0 < k <= |inner| + 2
    ensures var all := [Open(isObject)] + inner + [Close(isObject)];
      Height(all[..k]) >= (if k < |all| then 1 else 0) && Height(all) == 0
  {
    var all := [Open(isObject)] + inner + [Close(isObject)];
    HeightAppend([Open(isObject)] + inner, [Close(isObject)]);
    HeightAppend([Open(isObject)], inner);
    if k < |all| {
      assert all[..k] == [Open(isObject)] + inner[..k - 1];
      HeightAppend([Open(isObject)], inner[..k - 1]);
    } else {
      assert all[..k] == all;
    }
  }

  lemma {:induction false} ValueNeverDips(v: Json)
    ensures NeverDips(Tokens(v))
    decreases v, 1
  {
    SomeTokens(v);
    ValueHeights(v, |Tokens(v)|);
    forall k | 0 <= k <= |Tokens(v)|
      ensures Height(Tokens(v)[..k]) >= 0
    {
      if k > 0 { ValueHeights(v, k); }
    }
  }

  lemma {:induction false} ItemHeights(items: seq<Json>)
    ensures NeverDips(ItemTokens(items))
    decreases items, 1
  {
    if items != [] {
      ValueNeverDips(items[0]);
      ItemHeights(items[1..]);
      NeverDipsAppend(Tokens(items[0]), ItemTokens(items[1..]));
    }
  }

  lemma {:induction false} MemberHeights(members: seq<Member>)
    ensures NeverDips(MemberTokens(members))
    decreases members, 1
  {
    if members != [] {
      var m := members[0];
      var name := [Single(Text(m.name))];
      assert NeverDips(name) by {
        assert forall k | 0 <= k <= |name| :: name[..k] == [] || name[..k] == name;
      }
      ValueNeverDips(m.value);
      MemberHeights(members[1..]);
      NeverDipsAppend(name, Tokens(m.value));
      NeverDipsAppend(name + Tokens(m.value), MemberTokens(members[1..]));
    }
  }

  // The decoder reports the end of input for a container left open; the walk does
  // not take it for the end of a document.
  lemma TruncatedIsRefused(v: Json, k: nat)
    requires k < |Tokens(v)|
    ensures !(Tokens(v)[..k] != [] && Walk([], Tokens(v)[..k]) == Some([]))
  {
    if k > 0 && Walk([], Tokens(v)[..k]).Some? {
      ValueHeights(v, k);
      WalkHeight([], Tokens(v)[..k]);
    }
  }

  /** The limit. */

  function Tower(n: nat): Json { if n == 0 then Leaf(Other) else Array([Tower(n - 1)]) }

  lemma {:induction false} TowerNests(n: nat, limit: int)
    ensures NoDuplicates(Tower(n)) && (NestsWithin(Tower(n), limit) <==> n == 0 || n <= limit)
  {
    if n > 0 {
      TowerNests(n - 1, limit - 1);
      var items := [Tower(n - 1)];
      assert Tower(n) == Array(items) && items[0] == Tower(n - 1);
    }
  }

  // Nesting is accepted 64 deep and no deeper.
  lemma SixtyFourDeep(n: nat)
    ensures Walk([], ItemTokens([Tower(n)])) == Some([]) <==> n <= 64
  {
    hide Walk, NestsWithin, NoDuplicates;
    SomeTokens(Tower(n));
    TowerNests(n, MAX_DEPTH);
    var values := [Tower(n)];
    assert values[0] == Tower(n) && ItemTokens(values) != [];
    assert (forall i | 0 <= i < |values| :: Allowed(values[i], 0)) <==> Allowed(values[0], 0);
    StructureIsExact(values);
  }
}

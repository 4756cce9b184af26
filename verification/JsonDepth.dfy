/** The streaming check of nesting depth and numbers, against the JSON tree it reads. */
module JsonDepth {
  import opened Basics
  import JsonNumber

  const MAX_PAYLOAD_DEPTH: nat := 64

  datatype Json =
    | Scalar
    | Number(text: string)
    | Array(items: seq<Json>)
    | Object(members: seq<Member>)
  datatype Member = Member(key: string, value: Json)

  // What the decoder's token stream shows of a value.
  datatype Token = Open | Close | NumberToken(text: string) | Other

  function Tokens(v: Json): seq<Token> {
    match v
    case Scalar => [Other]
    case Number(text) => [NumberToken(text)]
    case Array(items) => [Open] + ItemTokens(items) + [Close]
    case Object(members) => [Open] + MemberTokens(members) + [Close]
  }

  function ItemTokens(items: seq<Json>): seq<Token> {
    if |items| == 0 then [] else Tokens(items[0]) + ItemTokens(items[1..])
  }

  function MemberTokens(members: seq<Member>): seq<Token> {
    if |members| == 0 then [] else [Other] + Tokens(members[0].value) + MemberTokens(members[1..])
  }

  // ----- what is checked, on the tree -----

  // The nesting depth: a container counts one level more than its deepest part.
  function Depth(v: Json): nat {
    match v
    case Scalar => 0
    case Number(_) => 0
    case Array(items) => 1 + ItemDepth(items)
    case Object(members) => 1 + MemberDepth(members)
  }

  function ItemDepth(items: seq<Json>): nat {
    if |items| == 0 then 0 else Max(Depth(items[0]), ItemDepth(items[1..]))
  }

  function MemberDepth(members: seq<Member>): nat {
    if |members| == 0 then 0 else Max(Depth(members[0].value), MemberDepth(members[1..]))
  }

  predicate NumbersFit(v: Json) {
    match v
    case Scalar => true
    case Number(text) => JsonNumber.Representable(text)
    case Array(items) => forall i :: 0 <= i < |items| ==> NumbersFit(items[i])
    case Object(members) => forall i :: 0 <= i < |members| ==> NumbersFit(members[i].value)
  }

  // ----- the check, on tokens -----

  // Whether the loop gets through the tokens when its counter starts at depth.
  predicate Passes(tokens: seq<Token>, depth: int)
    decreases |tokens|
  {
    |tokens| == 0 ||
    match tokens[0]
    case Open => depth + 1 <= MAX_PAYLOAD_DEPTH && Passes(tokens[1..], depth + 1)
    case Close => Passes(tokens[1..], depth - 1)
    case NumberToken(text) => JsonNumber.Representable(text) && Passes(tokens[1..], depth)
    case Other => Passes(tokens[1..], depth)
  }

  method CheckTokens(tokens: seq<Token>) returns (ok: bool)
    ensures ok <==> Passes(tokens, 0)
  {
    var depth, i := 0, 0;
    assert tokens[0..] == tokens;
    while i < |tokens|
      invariant 0 <= i <= |tokens|
      invariant Passes(tokens, 0) <==> Passes(tokens[i..], depth)
    {
      assert tokens[i..][1..] == tokens[i + 1..];
      match tokens[i] {
        case Open =>
          depth := depth + 1;
          if depth > MAX_PAYLOAD_DEPTH {
            return false;
          }
        case Close =>
          depth := depth - 1;
        case NumberToken(text) =>
          if !JsonNumber.Representable(text) {
            return false;
          }
        case Other =>
      }
      i := i + 1;
    }
    ok := true;
  }

  ghost predicate Fits(v: Json, depth: int) {
    depth + Depth(v) <= MAX_PAYLOAD_DEPTH && NumbersFit(v)
  }

  // The tokens of a value leave the counter where it was, and get through
  // exactly when the value fits at that depth.
  lemma {:induction false} PassesValue(v: Json, rest: seq<Token>, depth: int)
    requires depth <= MAX_PAYLOAD_DEPTH
    ensures Passes(Tokens(v) + rest, depth) <==> Fits(v, depth) && Passes(rest, depth)
    decreases v, 1
  {
    var tokens := Tokens(v) + rest;
    match v
    case Scalar => assert tokens[1..] == rest;
    case Number(_) => assert tokens[1..] == rest;
    case Array(items) =>
      var inner := [Close] + rest;
      assert tokens[1..] == ItemTokens(items) + inner;
      if depth + 1 <= MAX_PAYLOAD_DEPTH {
        PassesItems(items, inner, depth + 1);
        assert inner[1..] == rest;
      }
    case Object(members) =>
      var inner := [Close] + rest;
      assert tokens[1..] == MemberTokens(members) + inner;
      if depth + 1 <= MAX_PAYLOAD_DEPTH {
        PassesMembers(members, inner, depth + 1);
        assert inner[1..] == rest;
      }
  }

  lemma {:induction false} PassesItems(items: seq<Json>, rest: seq<Token>, depth: int)
    requires depth <= MAX_PAYLOAD_DEPTH
    ensures Passes(ItemTokens(items) + rest, depth) <==>
              depth + ItemDepth(items) <= MAX_PAYLOAD_DEPTH && (forall i :: 0 <= i < |items| ==> NumbersFit(items[i])) && Passes(rest, depth)
    decreases items, 0
  {
    if |items| == 0 {
      assert ItemTokens(items) + rest == rest;
    } else {
      var tail := items[1..];
      assert ItemTokens(items) + rest == Tokens(items[0]) + (ItemTokens(tail) + rest);
      PassesValue(items[0], ItemTokens(tail) + rest, depth);
      PassesItems(tail, rest, depth);
      assert items == [items[0]] + tail;
    }
  }

  // A key has no influence.
  lemma {:induction false} PassesKey(members: seq<Member>, rest: seq<Token>, depth: int)
    requires |members| > 0
    ensures Passes(MemberTokens(members) + rest, depth)
       <==> Passes(Tokens(members[0].value) + (MemberTokens(members[1..]) + rest), depth)
  {
    var all := MemberTokens(members) + rest;
    var inner := Tokens(members[0].value) + (MemberTokens(members[1..]) + rest);
    assert all == [Other] + inner;
    assert all[0] == Other && all[1..] == inner;
  }

  lemma {:induction false} PassesMembers(members: seq<Member>, rest: seq<Token>, depth: int)
    requires depth <= MAX_PAYLOAD_DEPTH
    ensures Passes(MemberTokens(members) + rest, depth) <==>
              depth + MemberDepth(members) <= MAX_PAYLOAD_DEPTH && (forall i :: 0 <= i < |members| ==> NumbersFit(members[i].value)) && Passes(rest, depth)
    decreases members, 0
  {
    if |members| == 0 {
      assert MemberTokens(members) + rest == rest;
    } else {
      var tail := members[1..];
      PassesKey(members, rest, depth);
      PassesValue(members[0].value, MemberTokens(tail) + rest, depth);
      PassesMembers(tail, rest, depth);
      assert members == [members[0]] + tail;
    }
  }

  // For every JSON tree: one counter over the token stream accepts it exactly
  // when it nests at most 64 levels and every number in it is representable.
  lemma {:induction false} StreamingCheckIsExact(v: Json)
    ensures Passes(Tokens(v), 0) <==> Depth(v) <= MAX_PAYLOAD_DEPTH && NumbersFit(v)
  {
    PassesValue(v, [], 0);
    assert Tokens(v) + [] == Tokens(v);
  }
}

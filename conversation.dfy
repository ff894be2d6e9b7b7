/** Conversation addressing (`createConversationId` in
    app/api/messages/route.ts): the two user ids sorted with JavaScript's
    default string order and joined with `_`. */
module Conversation {
  import Text

  const Separator: char := '_'

  function CreateConversationId(userId1: string, userId2: string): (r: string)
    ensures r == userId1 + [Separator] + userId2 || r == userId2 + [Separator] + userId1
    ensures |r| == |userId1| + |userId2| + 1
  {
    if Text.Less(userId2, userId1) then userId2 + [Separator] + userId1
    else userId1 + [Separator] + userId2
  }

  /** The id does not depend on which of the two users asks. */
  lemma Symmetric(a: string, b: string)
    ensures CreateConversationId(a, b) == CreateConversationId(b, a)
  {
    if a != b {
      Text.LessTotal(a, b);
      if Text.Less(a, b) {
        Text.LessAsymmetric(a, b);
      } else {
        Text.LessAsymmetric(b, a);
      }
    }
  }

  /** The smaller id (in the sort order) comes first. */
  lemma SmallerFirst(a: string, b: string)
    requires Text.Less(a, b)
    ensures CreateConversationId(a, b) == a + [Separator] + b
    ensures CreateConversationId(b, a) == a + [Separator] + b
  {
    Text.LessAsymmetric(a, b);
  }

  /** Splitting at the separator is unambiguous when the left parts hold no separator. */
  lemma {:induction false} JoinInjective(x: string, y: string, x': string, y': string)
    requires Separator !in x && Separator !in x'
    requires x + [Separator] + y == x' + [Separator] + y'
    ensures x == x' && y == y'
  {
    var j := x + [Separator] + y;
    assert forall k :: 0 <= k < |x| ==> j[k] == x[k];
    assert forall k :: 0 <= k < |x'| ==> j[k] == x'[k];
    assert j[|x|] == Separator && j[|x'|] == Separator;
    assert |x| == |x'|;
    assert x == j[..|x|] == x';
    assert y == j[|x| + 1..] == y';
  }

  /** Two pairs of separator-free ids get the same conversation id only
      when they are the same pair, in either order. */
  lemma Injective(a: string, b: string, c: string, d: string)
    requires Separator !in a && Separator !in b && Separator !in c && Separator !in d
    requires CreateConversationId(a, b) == CreateConversationId(c, d)
    ensures (a == c && b == d) || (a == d && b == c)
  {
    var r := CreateConversationId(a, b);
    if r == a + [Separator] + b {
      if r == c + [Separator] + d { JoinInjective(a, b, c, d); } else { JoinInjective(a, b, d, c); }
    } else {
      if r == c + [Separator] + d { JoinInjective(b, a, c, d); } else { JoinInjective(b, a, d, c); }
    }
  }

  /** A conversation with one fixed user identifies the other user. */
  lemma DistinctPeers(a: string, b: string, c: string)
    requires Separator !in a && Separator !in b && Separator !in c
    requires b != c
    ensures CreateConversationId(a, b) != CreateConversationId(a, c)
  {
    if CreateConversationId(a, b) == CreateConversationId(a, c) {
      Injective(a, b, a, c);
    }
  }
}

/**
  The bracket that matches the one at or before the cursor: two loops that
  count depth, one forward and one backward, and the pairing they both compute.
 */
module Brackets {
  import opened Machine
  import opened Wrappers

  datatype Kind = Kind(open: char, close: char)

  const KINDS: seq<Kind> := [Kind('(', ')'), Kind('[', ']'), Kind('{', '}')]

  /** The kind of bracket a character is, and whether it opens. */
  function KindOf(c: char): (r: Option<(Kind, bool)>)
    ensures r.Some? ==> r.value.0 in KINDS && r.value.0.open != r.value.0.close
                        && c == if r.value.1 then r.value.0.open else r.value.0.close
    ensures r.None? ==> forall k <- KINDS :: c != k.open && c != k.close
  {
    match c
    case '(' => Some((KINDS[0], true))
    case '[' => Some((KINDS[1], true))
    case '{' => Some((KINDS[2], true))
    case ')' => Some((KINDS[0], false))
    case ']' => Some((KINDS[1], false))
    case '}' => Some((KINDS[2], false))
    case _ => None
  }

  function Weight(c: char, k: Kind): int {
    if c == k.open then 1 else if c == k.close then -1 else 0
  }

  /** Opening minus closing brackets from `i` up to, not including, `j`. */
  function Level(text: string, k: Kind, i: nat, j: nat): int
    requires i <= j <= |text|
  {
    if i == j then 0 else Level(text, k, i, j - 1) + Weight(text[j - 1], k)
  }

  lemma {:induction false} LevelSplits(text: string, k: Kind, a: nat, b: nat, c: nat)
    requires a <= b <= c <= |text|
    ensures Level(text, k, a, c) == Level(text, k, a, b) + Level(text, k, b, c)
  {
    if b < c {
      LevelSplits(text, k, a, b, c - 1);
    }
  }

  /** The brackets at `i` and `j` belong together: the level between them never returns to nothing before `j`. */
  ghost predicate Pair(text: string, k: Kind, i: int, j: int) {
    && 0 <= i < j < |text|
    && text[i] == k.open && text[j] == k.close
    && Level(text, k, i, j + 1) == 0
    && forall m | i < m <= j :: Level(text, k, i, m) > 0
  }

  /** From `m` up to and including `j` more brackets close than open. */
  predicate Sinks(text: string, k: Kind, m: int, j: int) {
    0 <= m <= j < |text| && Level(text, k, m, j + 1) < 0
  }

  /** Seen from the closing bracket, the level never returns to nothing before `i`. */
  lemma PairBackward(text: string, k: Kind, i: int, j: int)
    requires Pair(text, k, i, j)
    ensures forall m | i < m <= j :: Sinks(text, k, m, j)
  {
    forall m | i < m <= j ensures Sinks(text, k, m, j) {
      LevelSplits(text, k, i, m, j + 1);
    }
  }

  /** No bracket has two partners. */
  lemma OnePartner(text: string, k: Kind, i: int, j: int, other: int)
    ensures Pair(text, k, i, j) && Pair(text, k, i, other) ==> j == other
    ensures Pair(text, k, i, j) && Pair(text, k, other, j) ==> i == other
  {
    if Pair(text, k, i, j) && Pair(text, k, other, j) {
      PairBackward(text, k, i, j);
      PairBackward(text, k, other, j);
      var here, there := Sinks(text, k, i, j), Sinks(text, k, other, j);
    }
  }

  /** Whether `target` is the partner of the bracket at `index`. */
  ghost predicate Partner(text: string, index: int, target: int) {
    && 0 <= index < |text| && KindOf(text[index]).Some?
    && var (k, opens) := KindOf(text[index]).value;
       if opens then Pair(text, k, index, target) else Pair(text, k, target, index)
  }

  ghost predicate Unmatched(text: string, index: int) {
    forall j :: !Partner(text, index, j)
  }

  /** From the partner one comes back. */
  lemma PartnerIsMutual(text: string, index: int, target: int)
    ensures Partner(text, index, target) <==> Partner(text, target, index)
  {
  }

  lemma PartnerIsUnique(text: string, index: int, target: int, other: int)
    requires Partner(text, index, target) && Partner(text, index, other)
    ensures target == other
  {
    var (k, opens) := KindOf(text[index]).value;
    if opens {
      OnePartner(text, k, index, target, other);
    } else {
      OnePartner(text, k, target, index, other);
    }
  }

  method SearchForward(text: string, index: nat, k: Kind) returns (target: Option<nat>)
    requires index < |text| && text[index] == k.open != k.close
    ensures target.Some? ==> Pair(text, k, index, target.value)
    ensures target.None? ==> forall j :: !Pair(text, k, index, j)
  {
    var depth: nat := 0;
    for cursor := index to |text|
      invariant depth == Level(text, k, index, cursor)
      invariant cursor > index ==> depth > 0
      invariant forall m | index < m <= cursor :: Level(text, k, index, m) > 0
    {
      if text[cursor] == k.open {
        depth := depth + 1;
      } else if text[cursor] == k.close {
        depth := SaturatingMinus(depth, 1);
        if depth == 0 {
          return Some(cursor);
        }
      }
    }
    target := None;
  }

  method SearchBackward(text: string, index: nat, k: Kind) returns (target: Option<nat>)
    requires index < |text| && text[index] == k.close != k.open
    ensures target.Some? ==> Pair(text, k, target.value, index)
    ensures target.None? ==> forall i :: !Pair(text, k, i, index)
  {
    var depth: nat := 0;
    for cursor := index + 1 downto 0
      invariant depth == -Level(text, k, cursor, index + 1)
      invariant cursor <= index ==> depth > 0
      invariant forall m | cursor <= m <= index :: Sinks(text, k, m, index)
    {
      LevelSplits(text, k, cursor, cursor + 1, index + 1);
      assert Level(text, k, cursor, cursor + 1) == Level(text, k, cursor, cursor) + Weight(text[cursor], k);
      if text[cursor] == k.close {
        depth := depth + 1;
      } else if text[cursor] == k.open {
        depth := SaturatingMinus(depth, 1);
        if depth == 0 {
          ForwardFromBackward(text, k, cursor, index);
          return Some(cursor);
        }
      }
    }
    target := None;
    forall i ensures !Pair(text, k, i, index) {
      assert 0 <= i <= index ==> Sinks(text, k, i, index);
    }
  }

  lemma ForwardFromBackward(text: string, k: Kind, i: nat, j: nat)
    requires i < j < |text| && text[i] == k.open && text[j] == k.close && Level(text, k, i, j + 1) == 0
    requires forall m | i < m <= j :: Sinks(text, k, m, j)
    ensures Pair(text, k, i, j)
  {
    forall m | i < m <= j ensures Level(text, k, i, m) > 0 {
      assert Sinks(text, k, m, j);
      LevelSplits(text, k, i, m, j + 1);
    }
  }

  method MatchingBracketFrom(text: string, index: nat) returns (target: Option<nat>)
    requires index < |text|
    ensures target.Some? ==> Partner(text, index, target.value)
    ensures target.None? ==> Unmatched(text, index)
  {
    var kind := KindOf(text[index]);
    if kind.None? {
      return None;
    }
    var (k, opens) := kind.value;
    if opens {
      target := SearchForward(text, index, k);
    } else {
      target := SearchBackward(text, index, k);
    }
  }

  /** The partner of the bracket at the cursor, or else of the one before it. */
  method MatchingBracket(text: string, cursor: nat) returns (target: Option<nat>)
    ensures target.Some? ==>
              || Partner(text, cursor, target.value)
              || (Unmatched(text, cursor) && Partner(text, cursor - 1, target.value))
    ensures target.None? ==> Unmatched(text, cursor) && Unmatched(text, cursor - 1)
  {
    if cursor < |text| {
      target := MatchingBracketFrom(text, cursor);
      if target.Some? {
        return;
      }
    }
    target := None;
    if cursor > 0 && cursor - 1 < |text| {
      target := MatchingBracketFrom(text, cursor - 1);
    }
  }
}

/** The edit distance behind "did you mean": insertions, deletions, replacements and swaps of neighbours. */
module CommandSuggestions {

  // ---- Edit scripts ----

  datatype Edit = Keep(c: char) | Insert(c: char) | Delete(c: char) | Replace(c: char, d: char) | Swap(c: char, d: char)

  function From(e: Edit): string {
    match e
    case Keep(c) => [c]
    case Insert(_) => []
    case Delete(c) => [c]
    case Replace(c, _) => [c]
    case Swap(c, d) => [c, d]
  }

  function To(e: Edit): string {
    match e
    case Keep(c) => [c]
    case Insert(c) => [c]
    case Delete(_) => []
    case Replace(_, d) => [d]
    case Swap(c, d) => [d, c]
  }

  function Source(s: seq<Edit>): string {
    if s == [] then [] else Source(s[..|s| - 1]) + From(s[|s| - 1])
  }

  function Target(s: seq<Edit>): string {
    if s == [] then [] else Target(s[..|s| - 1]) + To(s[|s| - 1])
  }

  /** Every edit but keeping a character costs one. */
  function Cost(s: seq<Edit>): nat {
    if s == [] then 0 else Cost(s[..|s| - 1]) + if s[|s| - 1].Keep? then 0 else 1
  }

  /** A script turns `a` into `b`, touching every character once. */
  predicate Turns(s: seq<Edit>, a: string, b: string) {
    Source(s) == a && Target(s) == b
  }

  // ---- The recursive distance ----

  function Min(a: nat, b: nat): nat {
    if b < a then b else a
  }

  /** The cheapest last step, given the distances it can start from. */
  function Cheapest(a: string, b: string, i: nat, j: nat, deleted: nat, inserted: nat, replaced: nat, swapped: nat): nat
    requires 0 < i <= |a| && 0 < j <= |b|
  {
    var step := Min(Min(deleted + 1, inserted + 1), replaced + if a[i - 1] == b[j - 1] then 0 else 1);
    if Swapped(a, b, i, j) then Min(step, swapped + 1) else step
  }

  predicate Swapped(a: string, b: string, i: nat, j: nat)
    requires i <= |a| && j <= |b|
  {
    i > 1 && j > 1 && a[i - 1] == b[j - 2] && a[i - 2] == b[j - 1]
  }

  /** The distance of the first `i` characters of `a` and the first `j` of `b`. */
  function Dist(a: string, b: string, i: nat, j: nat): nat
    requires i <= |a| && j <= |b|
    decreases i + j
  {
    if i == 0 then j
    else if j == 0 then i
    else Cheapest(a, b, i, j, Dist(a, b, i - 1, j), Dist(a, b, i, j - 1), Dist(a, b, i - 1, j - 1),
                  if Swapped(a, b, i, j) then Dist(a, b, i - 2, j - 2) else 0)
  }

  function Distance(a: string, b: string): nat {
    Dist(a, b, |a|, |b|)
  }

  /** No script is cheaper than the distance. */
  lemma {:induction false} DistanceIsLeast(s: seq<Edit>, a: string, b: string, i: nat, j: nat)
    requires i <= |a| && j <= |b| && Turns(s, a[..i], b[..j])
    ensures Dist(a, b, i, j) <= Cost(s)
    decreases |s|
  {
    if s == [] {
      assert i == 0 && j == 0;
    } else {
      var e, rest := s[|s| - 1], s[..|s| - 1];
      var x, y := |From(e)|, |To(e)|;
      assert x <= i && y <= j;
      assert a[..i] == a[..i - x] + a[i - x..i] && b[..j] == b[..j - y] + b[j - y..j];
      assert Source(rest) == a[..i - x] && From(e) == a[i - x..i];
      assert Target(rest) == b[..j - y] && To(e) == b[j - y..j];
      DistanceIsLeast(rest, a, b, i - x, j - y);
      Unfolding(a, b, i, j, e);
    }
  }

  /** One unfolding of the recursion, as a list of bounds. */
  lemma DistBounds(a: string, b: string, i: nat, j: nat)
    requires i <= |a| && j <= |b|
    ensures i > 0 ==> Dist(a, b, i, j) <= Dist(a, b, i - 1, j) + 1
    ensures j > 0 ==> Dist(a, b, i, j) <= Dist(a, b, i, j - 1) + 1
    ensures i > 0 && j > 0 ==> Dist(a, b, i, j) <= Dist(a, b, i - 1, j - 1) + if a[i - 1] == b[j - 1] then 0 else 1
    ensures Swapped(a, b, i, j) ==> Dist(a, b, i, j) <= Dist(a, b, i - 2, j - 2) + 1
  {
  }

  /** The last edit of a script is one of the choices of the recursion. */
  lemma Unfolding(a: string, b: string, i: nat, j: nat, e: Edit)
    requires i <= |a| && j <= |b| && |From(e)| <= i && |To(e)| <= j
    requires a[i - |From(e)|..i] == From(e) && b[j - |To(e)|..j] == To(e)
    ensures Dist(a, b, i, j) <= Dist(a, b, i - |From(e)|, j - |To(e)|) + if e.Keep? then 0 else 1
  {
    hide Dist, Swapped;
    match e
    case Keep(c) => KeepSeen(a, b, i, j, c); DistBounds(a, b, i, j);
    case Insert(c) => DistBounds(a, b, i, j);
    case Delete(c) => DistBounds(a, b, i, j);
    case Replace(c, d) => DistBounds(a, b, i, j);
    case Swap(c, d) => SwapSeen(a, b, i, j, c, d); DistBounds(a, b, i, j);
  }

  lemma KeepSeen(a: string, b: string, i: nat, j: nat, c: char)
    requires 1 <= i <= |a| && 1 <= j <= |b| && a[i - 1..i] == [c] == b[j - 1..j]
    ensures a[i - 1] == b[j - 1]
  {
    assert a[i - 1..i][0] == c && b[j - 1..j][0] == c;
  }

  lemma SwapSeen(a: string, b: string, i: nat, j: nat, c: char, d: char)
    requires 2 <= i <= |a| && 2 <= j <= |b| && a[i - 2..i] == [c, d] && b[j - 2..j] == [d, c]
    ensures Swapped(a, b, i, j)
  {
    assert a[i - 2..i][0] == c && a[i - 2..i][1] == d && b[j - 2..j][0] == d && b[j - 2..j][1] == c;
  }

  /** The distance from which edit `e` arrives at the first `i` and `j` characters. */
  function Via(a: string, b: string, i: nat, j: nat, e: Edit): nat
    requires i <= |a| && j <= |b| && |From(e)| <= i && |To(e)| <= j
  {
    Dist(a, b, i - |From(e)|, j - |To(e)|) + if e.Keep? then 0 else 1
  }

  /** An edit takes the last characters of one string to those of the other. */
  predicate Fits(a: string, b: string, i: nat, j: nat, e: Edit)
    requires i <= |a| && j <= |b|
  {
    |From(e)| <= i && |To(e)| <= j && a[..i] == a[..i - |From(e)|] + From(e) && b[..j] == b[..j - |To(e)|] + To(e)
  }

  lemma OneSideFits(a: string, b: string, i: nat, j: nat)
    requires i <= |a| && j <= |b|
    ensures i > 0 ==>
      Fits(a, b, i, j, Delete(a[i - 1])) && Via(a, b, i, j, Delete(a[i - 1])) == Dist(a, b, i - 1, j) + 1
    ensures j > 0 ==>
      Fits(a, b, i, j, Insert(b[j - 1])) && Via(a, b, i, j, Insert(b[j - 1])) == Dist(a, b, i, j - 1) + 1
  {
    hide Dist;
    if i > 0 { assert a[..i] == a[..i - 1] + [a[i - 1]]; }
    if j > 0 { assert b[..j] == b[..j - 1] + [b[j - 1]]; }
    assert a[..i] == a[..i] + [] && b[..j] == b[..j] + [];
  }

  lemma BothSidesFit(a: string, b: string, i: nat, j: nat)
    requires 0 < i <= |a| && 0 < j <= |b|
    ensures a[i - 1] == b[j - 1] ==>
      Fits(a, b, i, j, Keep(a[i - 1])) && Via(a, b, i, j, Keep(a[i - 1])) == Dist(a, b, i - 1, j - 1)
    ensures Fits(a, b, i, j, Replace(a[i - 1], b[j - 1]))
    ensures Via(a, b, i, j, Replace(a[i - 1], b[j - 1])) == Dist(a, b, i - 1, j - 1) + 1
  {
    hide Dist;
    assert a[..i] == a[..i - 1] + [a[i - 1]] && b[..j] == b[..j - 1] + [b[j - 1]];
  }

  lemma SwapFits(a: string, b: string, i: nat, j: nat)
    requires i <= |a| && j <= |b| && Swapped(a, b, i, j)
    ensures Fits(a, b, i, j, Swap(a[i - 2], a[i - 1]))
    ensures Via(a, b, i, j, Swap(a[i - 2], a[i - 1])) == Dist(a, b, i - 2, j - 2) + 1
  {
    hide Dist;
    assert a[..i] == a[..i - 2] + [a[i - 2], a[i - 1]];
    assert b[..j] == b[..j - 2] + [b[j - 2], b[j - 1]];
  }

  /** The edit by which the recursion attains its minimum. */
  lemma LastEdit(a: string, b: string, i: nat, j: nat) returns (e: Edit)
    requires i <= |a| && j <= |b| && i + j > 0
    ensures Fits(a, b, i, j, e) && Dist(a, b, i, j) == Via(a, b, i, j, e)
  {
    OneSideFits(a, b, i, j);
    if i == 0 {
      e := Insert(b[j - 1]);
    } else if j == 0 {
      e := Delete(a[i - 1]);
    } else {
      BothSidesFit(a, b, i, j);
      DistAttained(a, b, i, j);
      hide Dist, Fits, Via, Swapped;
      if Dist(a, b, i, j) == Dist(a, b, i - 1, j) + 1 { e := Delete(a[i - 1]); }
      else if Dist(a, b, i, j) == Dist(a, b, i, j - 1) + 1 { e := Insert(b[j - 1]); }
      else if a[i - 1] == b[j - 1] && Dist(a, b, i, j) == Dist(a, b, i - 1, j - 1) { e := Keep(a[i - 1]); }
      else if a[i - 1] != b[j - 1]
        && Dist(a, b, i, j) == Dist(a, b, i - 1, j - 1) + 1 { e := Replace(a[i - 1], b[j - 1]); }
      else { e := SwapLast(a, b, i, j); }
    }
  }

  lemma SwapLast(a: string, b: string, i: nat, j: nat) returns (e: Edit)
    requires i <= |a| && j <= |b| && Swapped(a, b, i, j) && Dist(a, b, i, j) == Dist(a, b, i - 2, j - 2) + 1
    ensures Fits(a, b, i, j, e) && Dist(a, b, i, j) == Via(a, b, i, j, e)
  {
    SwapFits(a, b, i, j);
    e := Swap(a[i - 2], a[i - 1]);
  }

  /** A script that attains the distance. */
  lemma {:induction false} CheapestScript(a: string, b: string, i: nat, j: nat) returns (s: seq<Edit>)
    requires i <= |a| && j <= |b|
    ensures Turns(s, a[..i], b[..j]) && Cost(s) == Dist(a, b, i, j)
    decreases i + j
  {
    if i + j == 0 {
      s := [];
      assert a[..i] == [] && b[..j] == [];
    } else {
      var e := LastEdit(a, b, i, j);
      var rest := CheapestScript(a, b, i - |From(e)|, j - |To(e)|);
      hide Dist, From, To;
      s := rest + [e];
      assert s[..|s| - 1] == rest;
    }
  }

  /** The distance is the cost of a cheapest script. */
  lemma DistanceIsMinimal(a: string, b: string)
    ensures forall s | Turns(s, a, b) :: Distance(a, b) <= Cost(s)
    ensures exists s :: Turns(s, a, b) && Cost(s) == Distance(a, b)
  {
    assert a[..|a|] == a && b[..|b|] == b;
    forall s | Turns(s, a, b) ensures Distance(a, b) <= Cost(s) { DistanceIsLeast(s, a, b, |a|, |b|); }
    var s := CheapestScript(a, b, |a|, |b|);
    assert Turns(s, a, b);
  }

  // ---- Symmetry and identity ----

  function Undone(e: Edit): Edit {
    match e
    case Keep(c) => Keep(c)
    case Insert(c) => Delete(c)
    case Delete(c) => Insert(c)
    case Replace(c, d) => Replace(d, c)
    case Swap(c, d) => Swap(d, c)
  }

  function Reverted(s: seq<Edit>): seq<Edit> {
    if s == [] then [] else Reverted(s[..|s| - 1]) + [Undone(s[|s| - 1])]
  }

  lemma {:induction false} RevertedTurnsBack(s: seq<Edit>)
    ensures Source(Reverted(s)) == Target(s) && Target(Reverted(s)) == Source(s) && Cost(Reverted(s)) == Cost(s)
  {
    if s != [] {
      RevertedTurnsBack(s[..|s| - 1]);
      var r := Reverted(s);
      assert r[..|r| - 1] == Reverted(s[..|s| - 1]);
    }
  }

  lemma DistanceSymmetric(a: string, b: string)
    ensures Distance(a, b) == Distance(b, a)
  {
    NotFarther(a, b);
    NotFarther(b, a);
  }

  lemma NotFarther(a: string, b: string)
    ensures Distance(b, a) <= Distance(a, b)
  {
    DistanceIsMinimal(a, b);
    DistanceIsMinimal(b, a);
    var s :| Turns(s, a, b) && Cost(s) == Distance(a, b);
    RevertedTurnsBack(s);
    assert Turns(Reverted(s), b, a);
  }

  lemma {:induction false} FreeScriptKeeps(s: seq<Edit>)
    requires Cost(s) == 0
    ensures Source(s) == Target(s)
  {
    if s != [] { FreeScriptKeeps(s[..|s| - 1]); }
  }

  lemma {:induction false} KeepingIsFree(a: string) returns (s: seq<Edit>)
    ensures Turns(s, a, a) && Cost(s) == 0
  {
    if a == "" {
      s := [];
    } else {
      var rest := KeepingIsFree(a[..|a| - 1]);
      s := rest + [Keep(a[|a| - 1])];
      assert s[..|s| - 1] == rest && a == a[..|a| - 1] + [a[|a| - 1]];
    }
  }

  lemma ZeroJustForEqual(a: string, b: string)
    ensures Distance(a, b) == 0 <==> a == b
  {
    DistanceIsMinimal(a, b);
    if Distance(a, b) == 0 {
      var s :| Turns(s, a, b) && Cost(s) == 0;
      FreeScriptKeeps(s);
    }
    if a == b {
      var s := KeepingIsFree(a);
    }
  }

  // ---- The table ----

  /** Fills the table row by row. */
  method CommandEditDistance(left: string, right: string) returns (distance: nat)
    ensures distance == Distance(left, right)
  {
    var distances := new nat[|left| + 1, |right| + 1];
    for i := 0 to |left| + 1
      invariant forall k | 0 <= k < i :: distances[k, 0] == Dist(left, right, k, 0)
    {
      distances[i, 0] := i;
    }
    for j := 0 to |right| + 1
      invariant forall k | 0 <= k <= |left| :: distances[k, 0] == Dist(left, right, k, 0)
      invariant forall k | 0 <= k < j :: distances[0, k] == Dist(left, right, 0, k)
    {
      distances[0, j] := j;
    }
    for i := 1 to |left| + 1
      invariant forall x, y | 0 <= x < i && 0 <= y <= |right| :: distances[x, y] == Dist(left, right, x, y)
      invariant forall x | i <= x <= |left| :: distances[x, 0] == Dist(left, right, x, 0)
    {
      FillRow(distances, left, right, i);
    }
    distance := distances[|left|, |right|];
  }

  /** One row of the table, from the two rows above it. */
  method FillRow(distances: array2<nat>, left: string, right: string, i: nat)
    requires 1 <= i <= |left| && distances.Length0 == |left| + 1 && distances.Length1 == |right| + 1
    requires forall x, y | 0 <= x < i && 0 <= y <= |right| :: distances[x, y] == Dist(left, right, x, y)
    requires forall x | i <= x <= |left| :: distances[x, 0] == Dist(left, right, x, 0)
    modifies distances
    ensures forall x, y | 0 <= x <= i && 0 <= y <= |right| :: distances[x, y] == Dist(left, right, x, y)
    ensures forall x | i < x <= |left| :: distances[x, 0] == Dist(left, right, x, 0)
  {
    hide Dist;
    for j := 1 to |right| + 1
      invariant forall x, y | 0 <= x < i && 0 <= y <= |right| :: distances[x, y] == Dist(left, right, x, y)
      invariant forall x | i <= x <= |left| :: distances[x, 0] == Dist(left, right, x, 0)
      invariant forall y | 0 <= y < j :: distances[i, y] == Dist(left, right, i, y)
    {
      var replacementCost := if left[i - 1] == right[j - 1] then 0 else 1;
      var best := distances[i - 1, j] + 1;
      if distances[i, j - 1] + 1 < best { best := distances[i, j - 1] + 1; }
      if distances[i - 1, j - 1] + replacementCost < best { best := distances[i - 1, j - 1] + replacementCost; }
      if i > 1 && j > 1 && left[i - 1] == right[j - 2] && left[i - 2] == right[j - 1] {
        if distances[i - 2, j - 2] + 1 < best { best := distances[i - 2, j - 2] + 1; }
      }
      DistAttained(left, right, i, j);
      distances[i, j] := best;
    }
  }

  lemma DistAttained(a: string, b: string, i: nat, j: nat)
    requires 1 <= i <= |a| && 1 <= j <= |b|
    ensures Dist(a, b, i, j) ==
      Cheapest(a, b, i, j, Dist(a, b, i - 1, j), Dist(a, b, i, j - 1), Dist(a, b, i - 1, j - 1),
               if Swapped(a, b, i, j) then Dist(a, b, i - 2, j - 2) else 0)
  {
    hide Cheapest;
  }

  // ---- Suggestions ----

  /** How far a suggestion may be from what was typed. */
  function Limit(command: string): nat {
    if |command| >= 5 then 2 else 1
  }

  /** The candidates at distance `d`, in order. */
  function AtDistance(command: string, candidates: seq<string>, d: nat): seq<string> {
    if candidates == [] then []
    else
      var init, last := candidates[..|candidates| - 1], candidates[|candidates| - 1];
      AtDistance(command, init, d) + if Distance(command, last) == d then [last] else []
  }

  lemma {:induction false} AtDistanceExact(command: string, candidates: seq<string>, d: nat, c: string)
    ensures c in AtDistance(command, candidates, d) <==> c in candidates && Distance(command, c) == d
  {
    if candidates != [] {
      var init, last := candidates[..|candidates| - 1], candidates[|candidates| - 1];
      AtDistanceExact(command, init, d, c);
      assert candidates == init + [last];
    }
  }

  /**
   Exactly the candidates at the least distance, in their order, as long as that is within the limit:
   one edit for what is shorter than five characters, two for everything else.
   */
  method SimilarCommands(typed: string, lower: string -> string, candidates: seq<string>)
    returns (suggestions: seq<string>)
    ensures var command := lower(typed);
      var furthest := if |command| < 5 then 1 else 2;
      (suggestions == [] && forall c | c in candidates :: Distance(command, c) > furthest)
      || exists best | 0 <= best <= furthest ::
           && suggestions == AtDistance(command, candidates, best) != []
           && forall c | c in candidates :: Distance(command, c) >= best
  {
    var command := lower(typed);
    var bestDistance := Limit(command) + 1;
    suggestions := [];
    for index := 0 to |candidates|
      invariant 0 <= bestDistance <= Limit(command) + 1
      invariant forall c | c in candidates[..index] :: Distance(command, c) >= bestDistance
      invariant suggestions == if bestDistance <= Limit(command)
        then AtDistance(command, candidates[..index], bestDistance) else []
      invariant bestDistance <= Limit(command) ==> suggestions != []
    {
      var candidate := candidates[index];
      assert candidates[..index + 1] == candidates[..index] + [candidate];
      assert candidates[..index + 1][..index] == candidates[..index];
      var distance := CommandEditDistance(command, candidate);
      if distance <= Limit(command) && distance <= bestDistance {
        if distance < bestDistance {
          NoneCloser(command, candidates[..index], distance);
          bestDistance, suggestions := distance, [];
        }
        suggestions := suggestions + [candidate];
      }
    }
    assert candidates[..|candidates|] == candidates;
  }

  lemma {:induction false} NoneCloser(command: string, candidates: seq<string>, d: nat)
    requires forall c | c in candidates :: Distance(command, c) > d
    ensures AtDistance(command, candidates, d) == []
  {
    if candidates != [] {
      assert candidates[|candidates| - 1] in candidates;
      NoneCloser(command, candidates[..|candidates| - 1], d);
    }
  }
}

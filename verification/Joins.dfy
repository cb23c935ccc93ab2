/**
 Texts joined by a separator: when the joined text determines its parts, and what other parts
 it could come from when it does not.
 */
module Joins {

  const BAR := '|'

  function Join(parts: seq<string>): string {
    if |parts| == 0 then "" else if |parts| == 1 then parts[0] else parts[0] + [BAR] + Join(parts[1..])
  }

  ghost predicate NoneEmpty(parts: seq<string>) {
    forall i :: 0 <= i < |parts| ==> parts[i] != ""
  }

  /** A separator inside a part with something of that part on the side of a neighbour. */
  ghost predicate Splits(parts: seq<string>, i: nat, k: nat) {
    && i < |parts| && k < |parts[i]| && parts[i][k] == BAR
    && ((i < |parts| - 1 && k > 0) || (i > 0 && k < |parts[i]| - 1))
  }

  ghost predicate Ambiguous(parts: seq<string>) {
    exists i: nat, k: nat :: Splits(parts, i, k)
  }

  // ---- Positions in the joined text ----

  /** Where part `i` begins; for `i == |parts|`, one past the separator that would follow. */
  function Begin(parts: seq<string>, i: nat): nat
    requires i <= |parts|
  {
    if i == 0 then 0 else Begin(parts, i - 1) + |parts[i - 1]| + 1
  }

  lemma {:induction false} BeginOfRest(parts: seq<string>, i: nat)
    requires 0 < |parts| && i < |parts|
    ensures Begin(parts, i + 1) == |parts[0]| + 1 + Begin(parts[1..], i)
  {
    if i > 0 {
      BeginOfRest(parts, i - 1);
    }
  }

  lemma {:induction false} JoinLength(parts: seq<string>)
    requires |parts| > 0
    ensures |Join(parts)| + 1 == Begin(parts, |parts|)
  {
    if |parts| > 1 {
      JoinLength(parts[1..]);
      BeginOfRest(parts, |parts| - 1);
    } else {
      assert Begin(parts, 1) == Begin(parts, 0) + |parts[0]| + 1;
    }
  }

  lemma {:induction false} BeginGrows(parts: seq<string>, i: nat, j: nat)
    requires i <= j <= |parts|
    ensures Begin(parts, i) <= Begin(parts, j)
  {
    if i < j {
      BeginGrows(parts, i, j - 1);
    }
  }

  lemma {:induction false} JoinAt(parts: seq<string>, i: nat, k: nat)
    requires i < |parts| && k < |parts[i]|
    ensures Begin(parts, i) + k < |Join(parts)| && Join(parts)[Begin(parts, i) + k] == parts[i][k]
  {
    if i > 0 {
      JoinAt(parts[1..], i - 1, k);
      BeginOfRest(parts, i - 1);
    }
  }

  lemma InRest(a: string, rest: string, k: nat)
    requires k < |rest|
    ensures (a + [BAR] + rest)[|a| + 1 + k] == rest[k]
  {
  }

  lemma {:induction false} JoinBar(parts: seq<string>, i: nat)
    requires i + 1 < |parts|
    ensures 0 < Begin(parts, i + 1) <= |Join(parts)| && Join(parts)[Begin(parts, i + 1) - 1] == BAR
  {
    var rest := Join(parts[1..]);
    assert Join(parts) == parts[0] + [BAR] + rest;
    if i > 0 {
      JoinBar(parts[1..], i - 1);
      BeginOfRest(parts, i);
      InRest(parts[0], rest, Begin(parts[1..], i) - 1);
    } else {
      assert Begin(parts, 1) == Begin(parts, 0) + |parts[0]| + 1;
    }
  }

  // ---- Unambiguous parts are determined ----

  ghost predicate Rivals(ps: seq<string>, qs: seq<string>) {
    |ps| == |qs| && NoneEmpty(ps) && NoneEmpty(qs) && Join(ps) == Join(qs)
  }

  lemma {:induction false} NoPartStartsEarlier(ps: seq<string>, qs: seq<string>, i: nat)
    requires Rivals(ps, qs) && !Ambiguous(ps) && i < |ps|
    ensures Begin(ps, i) <= Begin(qs, i)
  {
    if i > 0 {
      NoPartStartsEarlier(ps, qs, i - 1);
      if Begin(qs, i) < Begin(ps, i) {
        var k := Begin(qs, i) - 1 - Begin(ps, i - 1);
        JoinBar(qs, i - 1);
        JoinAt(ps, i - 1, k);
        assert Splits(ps, i - 1, k);
      }
    }
  }

  lemma {:induction false} NoPartStartsLater(ps: seq<string>, qs: seq<string>, i: nat)
    requires Rivals(ps, qs) && !Ambiguous(ps) && 0 < i <= |ps|
    ensures Begin(qs, i) <= Begin(ps, i)
    decreases |ps| - i
  {
    if i == |ps| {
      JoinLength(ps);
      JoinLength(qs);
    } else {
      NoPartStartsLater(ps, qs, i + 1);
      if Begin(ps, i) < Begin(qs, i) {
        var k := Begin(qs, i) - 1 - Begin(ps, i);
        JoinBar(qs, i - 1);
        assert Begin(qs, i + 1) == Begin(qs, i) + |qs[i]| + 1 && Begin(ps, i + 1) == Begin(ps, i) + |ps[i]| + 1;
        JoinAt(ps, i, k);
        assert Splits(ps, i, k);
      }
    }
  }

  lemma SameBegins(ps: seq<string>, qs: seq<string>, i: nat)
    requires Rivals(ps, qs) && !Ambiguous(ps) && i <= |ps|
    ensures Begin(ps, i) == Begin(qs, i)
  {
    if i > 0 {
      NoPartStartsLater(ps, qs, i);
    }
    if i < |ps| {
      NoPartStartsEarlier(ps, qs, i);
    } else if i > 0 {
      JoinLength(ps);
      JoinLength(qs);
    }
  }

  lemma UnambiguousPartsAreDetermined(ps: seq<string>, qs: seq<string>)
    requires Rivals(ps, qs) && !Ambiguous(ps)
    ensures ps == qs
  {
    forall i | 0 <= i < |ps| ensures ps[i] == qs[i] {
      SameBegins(ps, qs, i);
      SameBegins(ps, qs, i + 1);
      forall k | 0 <= k < |ps[i]| ensures ps[i][k] == qs[i][k] {
        JoinAt(ps, i, k);
        JoinAt(qs, i, k);
      }
    }
  }

  // ---- Ambiguous parts have a rival ----

  lemma {:induction false} NeighboursMayShift(ps: seq<string>, qs: seq<string>, i: nat)
    requires |ps| == |qs| && i + 1 < |ps| && ps[i] + [BAR] + ps[i + 1] == qs[i] + [BAR] + qs[i + 1]
    requires forall j :: 0 <= j < |ps| && j != i && j != i + 1 ==> ps[j] == qs[j]
    ensures Join(ps) == Join(qs)
  {
    if i > 0 {
      NeighboursMayShift(ps[1..], qs[1..], i - 1);
    } else if |ps| == 2 {
      assert Join(ps[1..]) == ps[1] && Join(qs[1..]) == qs[1];
    } else {
      assert ps[1..][1..] == qs[1..][1..];
      var rest := [BAR] + Join(ps[1..][1..]);
      assert Join(ps) == ps[0] + [BAR] + ps[1] + rest && Join(qs) == qs[0] + [BAR] + qs[1] + rest;
    }
  }

  lemma RivalOf(ps: seq<string>, i: nat, k: nat) returns (qs: seq<string>)
    requires NoneEmpty(ps) && Splits(ps, i, k)
    ensures Rivals(ps, qs) && ps != qs
  {
    var before, after := ps[i][..k], ps[i][k + 1..];
    assert ps[i] == before + [BAR] + after;
    if i < |ps| - 1 && k > 0 {
      qs := ps[i := before][i + 1 := after + [BAR] + ps[i + 1]];
      assert ps[i] + [BAR] + ps[i + 1] == qs[i] + [BAR] + qs[i + 1];
      NeighboursMayShift(ps, qs, i);
      assert qs[i] != ps[i];
    } else {
      qs := ps[i - 1 := ps[i - 1] + [BAR] + before][i := after];
      assert ps[i - 1] + [BAR] + ps[i] == qs[i - 1] + [BAR] + qs[i];
      NeighboursMayShift(ps, qs, i - 1);
      assert qs[i] != ps[i];
    }
  }

  /** Other non-empty parts give the same text exactly when some separator inside a part could pass
      to a neighbour and leave something behind. */
  lemma HasRivalIff(ps: seq<string>)
    requires NoneEmpty(ps)
    ensures Ambiguous(ps) <==> exists qs :: Rivals(ps, qs) && ps != qs
  {
    if Ambiguous(ps) {
      var i: nat, k: nat :| Splits(ps, i, k);
      var qs := RivalOf(ps, i, k);
    } else {
      forall qs | Rivals(ps, qs) ensures ps == qs {
        UnambiguousPartsAreDetermined(ps, qs);
      }
    }
  }
}

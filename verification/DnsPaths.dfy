/** Names read along paths through a message: what the octets at each place must be, written out. */
module DnsPaths {
  import opened Octets
  import opened DnsNames

  /** From `a` a name goes on at `b`: after a label of 1 to 63 octets, after a bit string, or where a pointer leads. */
  ghost predicate GoesOn(m: seq<Octet>, a: nat, b: nat)
  {
    && a + 1 < |m| && b < |m|
    && (|| (1 <= m[a] <= 63 && b == a + m[a] + 1)
        || (m[a] == 65 && b == a + 2 + m[a + 1] / 8)
        || (m[a] >= 192 && b == PointsTo(m[a], m[a + 1])))
  }

  /** The two octets of a pointer: two bits set, and then fourteen that count octets from the start of the message. */
  function PointsTo(high: int, low: int): int { (high - 192) * 256 + low }

  /** The places of a name in a message, one after the other, up to its root. */
  ghost predicate Path(m: seq<Octet>, ps: seq<nat>)
  {
    && ps != [] && (forall i :: 0 < i < |ps| ==> GoesOn(m, ps[i - 1], ps[i]))
    && ps[|ps| - 1] < |m| && m[ps[|ps| - 1]] == 0
  }

  ghost predicate IsPointer(m: seq<Octet>, p: nat) { p < |m| && m[p] >= 192 }

  /** How many pointers a path follows. */
  ghost function Jumps(m: seq<Octet>, ps: seq<nat>): nat
  {
    if ps == [] then 0 else (if IsPointer(m, ps[0]) then 1 else 0) + Jumps(m, ps[1..])
  }

  /** The labels on a path, and the root. */
  ghost function Labels(m: seq<Octet>, ps: seq<nat>): seq<Octet>
  {
    if |ps| < 2 then [0]
    else (if IsPointer(m, ps[0]) then [] else Between(m, ps[0], ps[1])) + Labels(m, ps[1..])
  }

  /** The octets looked at before the last pointer of a path is followed, and its two. */
  ghost function Visited(m: seq<Octet>, ps: seq<nat>): nat
  {
    if Jumps(m, ps) == 0 then 0
    else (if IsPointer(m, ps[0]) then 2 else if |ps| > 1 then |Between(m, ps[0], ps[1])| else 0) + Visited(m, ps[1..])
  }

  ghost function Between(m: seq<Octet>, a: nat, b: nat): seq<Octet> { if a <= b <= |m| then m[a..b] else [] }

  lemma PathTail(m: seq<Octet>, ps: seq<nat>)
    requires Path(m, ps) && |ps| > 1
    ensures GoesOn(m, ps[0], ps[1]) && Path(m, ps[1..]) && ps[1..][0] == ps[1]
  {
    var rest := ps[1..];
    forall i | 0 < i < |rest| ensures GoesOn(m, rest[i - 1], rest[i]) {
      assert rest[i - 1] == ps[i] && GoesOn(m, ps[i + 1 - 1], ps[i + 1]);
    }
  }

  lemma PathCons(m: seq<Octet>, a: nat, ps: seq<nat>)
    requires Path(m, ps) && GoesOn(m, a, ps[0])
    ensures
      var all := [a] + ps;
      && Path(m, all) && Jumps(m, all) == (if IsPointer(m, a) then 1 else 0) + Jumps(m, ps)
      && Labels(m, all) == (if IsPointer(m, a) then [] else Between(m, a, ps[0])) + Labels(m, ps)
      && Visited(m, all) == if Jumps(m, all) == 0 then 0
         else (if IsPointer(m, a) then 2 else |Between(m, a, ps[0])|) + Visited(m, ps)
  {
    var all := [a] + ps;
    assert all[1..] == ps;
    forall i | 0 < i < |all| ensures GoesOn(m, all[i - 1], all[i]) {
      if i > 1 { assert all[i] == ps[i - 1] && all[i - 1] == ps[i - 2]; }
    }
  }

  lemma {:induction false} VisitedIff(m: seq<Octet>, ps: seq<nat>)
    ensures Visited(m, ps) == 0 <==> Jumps(m, ps) == 0
    decreases |ps|
  {
    if Jumps(m, ps) != 0 && !IsPointer(m, ps[0]) { VisitedIff(m, ps[1..]); }
  }

  /** The path is that of the name denoted at `p`. */
  ghost predicate Along(m: seq<Octet>, ps: seq<nat>, p: nat, hops: nat)
  {
    && Denotes(m, p, hops) && Path(m, ps) && ps[0] == p && Jumps(m, ps) <= hops
    && Labels(m, ps) == Wire(m, p, hops) && Visited(m, ps) == Walked(m, p, hops)
  }

  lemma AlongLabel(m: seq<Octet>, p: nat, rest: seq<nat>, hops: nat)
    requires Denotes(m, p, hops) && At(m, p).Label? && Along(m, rest, p + At(m, p).size, hops)
    ensures Along(m, [p] + rest, p, hops)
  {
    PathCons(m, p, rest);
    VisitedIff(m, rest);
  }

  lemma AlongPointer(m: seq<Octet>, p: nat, rest: seq<nat>, hops: nat)
    requires Denotes(m, p, hops) && At(m, p).Pointer? && Along(m, rest, At(m, p).target, hops - 1)
    ensures Along(m, [p] + rest, p, hops)
  {
    PathCons(m, p, rest);
  }

  /** A denoted name lies on a path; along it are its labels, its pointers and what the walk visits. */
  lemma {:induction false} PathOf(m: seq<Octet>, p: nat, hops: nat) returns (ps: seq<nat>)
    requires Denotes(m, p, hops)
    ensures Along(m, ps, p, hops)
    decreases hops, |m| - p
  {
    match At(m, p)
    case Root =>
      ps := [p];
    case Label(n) =>
      var rest := PathOf(m, p + n, hops);
      AlongLabel(m, p, rest, hops);
      ps := [p] + rest;
    case Pointer(t) =>
      var rest := PathOf(m, t, hops - 1);
      AlongPointer(m, p, rest, hops);
      ps := [p] + rest;
  }

  /** What lies on a path is a name, whose path it is. */
  lemma {:induction false} PathDenotes(m: seq<Octet>, ps: seq<nat>)
    requires Path(m, ps)
    ensures Along(m, ps, ps[0], Jumps(m, ps))
    decreases |ps|
  {
    var p := ps[0];
    if |ps| == 1 {
      assert At(m, p) == Root && ps[1..] == [];
    } else {
      PathTail(m, ps);
      PathDenotes(m, ps[1..]);
      assert ps == [p] + ps[1..];
      if IsPointer(m, p) {
        assert At(m, p) == Pointer(ps[1]);
        AlongPointer(m, p, ps[1..], Jumps(m, ps));
      } else {
        assert At(m, p) == Label(ps[1] - p);
        AlongLabel(m, p, ps[1..], Jumps(m, ps));
      }
    }
  }

  /** A name is denoted within so many pointers exactly when a path with no more leads from its place to a root. */
  lemma DenotesIff(m: seq<Octet>, p: nat, hops: nat)
    ensures Denotes(m, p, hops) <==> exists ps :: Path(m, ps) && ps[0] == p && Jumps(m, ps) <= hops
    ensures Denotes(m, p, hops) ==> forall ps :: Path(m, ps) && ps[0] == p ==>
      Labels(m, ps) == Wire(m, p, hops) && Visited(m, ps) == Walked(m, p, hops)
  {
    if Denotes(m, p, hops) {
      var ps := PathOf(m, p, hops);
      forall qs | Path(m, qs) && qs[0] == p ensures qs == ps { OnePath(m, ps, qs); }
    }
    forall ps | Path(m, ps) && ps[0] == p && Jumps(m, ps) <= hops ensures Denotes(m, p, hops) {
      PathDenotes(m, ps);
      DenotesMonotone(m, p, Jumps(m, ps), hops);
    }
  }

  /** There is one path at most from a place. */
  lemma {:induction false} OnePath(m: seq<Octet>, ps: seq<nat>, qs: seq<nat>)
    requires Path(m, ps) && Path(m, qs) && ps[0] == qs[0]
    ensures ps == qs
    decreases |ps|
  {
    if |ps| > 1 && |qs| > 1 {
      PathTail(m, ps);
      PathTail(m, qs);
      OnePath(m, ps[1..], qs[1..]);
      assert ps == [ps[0]] + ps[1..] && qs == [qs[0]] + qs[1..];
    } else if |ps| > 1 {
      PathTail(m, ps);
    } else if |qs| > 1 {
      PathTail(m, qs);
    }
  }

  /** A name's own octets end with its first pointer or its root. */
  lemma {:induction false} OwnLengthIs(m: seq<Octet>, ps: seq<nat>, j: nat)
    requires Path(m, ps) && j < |ps| && (IsPointer(m, ps[j]) || j == |ps| - 1)
    requires forall i :: 0 <= i < j ==> !IsPointer(m, ps[i])
    ensures ps[0] <= ps[j] && OwnLength(m, ps[0]) == ps[j] - ps[0] + if IsPointer(m, ps[j]) then 2 else 1
    decreases j
  {
    if |ps| > 1 { PathTail(m, ps); }
    if j > 0 {
      assert !IsPointer(m, ps[0]) && At(m, ps[0]) == Label(ps[1] - ps[0]);
      OwnLengthIs(m, ps[1..], j - 1);
    }
  }
}

/** The groups of mutually exclusive options shown in the usage line. */
module UsageGroups {

  import opened Excludes

  // Whether the options with these two letters exclude each other.
  predicate Clash(v: seq<Opt>, a: char, b: char) { Excludes2(v, Find(v, a), Find(v, b)) }

  lemma {:induction false} ClashSymmetric(v: seq<Opt>, a: char, b: char)
    ensures Clash(v, a, b) == Clash(v, b, a) && !Clash(v, a, a)
  {
    Excludes2Symmetric(v, Find(v, a), Find(v, b));
  }

  ghost predicate NoRepeats(s: string) { forall i, j :: 0 <= i < j < |s| ==> s[i] != s[j] }

  // The option at k and, of the first n listed, those it excludes, in their order.
  function Group(v: seq<Opt>, list: string, k: nat, n: nat): string
    requires k < |list| && n <= |list|
  {
    if n == 0 then []
    else
      Group(v, list, k, n - 1) + if k == n - 1 || Clash(v, list[k], list[n - 1]) then [list[n - 1]] else []
  }

  function Around(v: seq<Opt>, list: string, k: nat): string
    requires k < |list|
  {
    Group(v, list, k, |list|)
  }

  lemma {:induction false} GroupHolds(v: seq<Opt>, list: string, k: nat, n: nat)
    requires k < |list| && n <= |list| && NoRepeats(list)
    ensures NoRepeats(Group(v, list, k, n))
    ensures forall c :: c in Group(v, list, k, n) <==> c in list[..n] && (c == list[k] || Clash(v, list[k], c))
  {
    if n > 0 {
      GroupHolds(v, list, k, n - 1);
      assert list[..n] == list[..n - 1] + [list[n - 1]];
      forall i | 0 <= i < n - 1 ensures list[i] != list[n - 1] { }
      assert list[n - 1] !in list[..n - 1];
    }
  }

  // No two places of s hold options that could be given together.
  ghost predicate Clique(v: seq<Opt>, s: string) {
    forall i, j :: 0 <= i < |s| && 0 <= j < |s| && i != j ==> Clash(v, s[i], s[j])
  }

  // ---- The vector of groups: None stands for a freed entry ----

  method BuildGroup(v: array<Opt>, list: string, cur: nat) returns (buf: string)
    requires cur < |list|
    ensures buf == Around(v[..], list, cur)
  {
    var l := FindOption(v, list[cur]);
    buf := "";
    var pc := 0;
    while pc < |list|
      invariant pc <= |list| && buf == Group(v[..], list, cur, pc)
    {
      if cur == pc {
        buf := buf + [list[pc]];
      } else {
        var r := FindOption(v, list[pc]);
        var excluded := DoExclude(v, l, r);
        if excluded { buf := buf + [list[pc]]; }
      }
      pc := pc + 1;
    }
  }

  method BuildGroups(v: array<Opt>, list: string) returns (listv: array<Maybe<string>>)
    ensures fresh(listv) && listv.Length == |list|
    ensures forall k :: 0 <= k < |list| ==> listv[k] == Some(Around(v[..], list, k))
  {
    listv := new Maybe<string>[|list|](_ => None);
    var listc := 0;
    while listc < |list|
      invariant listc <= |list|
      invariant forall k :: 0 <= k < listc ==> listv[k] == Some(Around(v[..], list, k))
    {
      var buf := BuildGroup(v, list, listc);
      listv[listc] := Some(buf);
      listc := listc + 1;
    }
  }

  // What is left of `was`: entries are only ever freed.
  ghost predicate Thinned(now: seq<Maybe<string>>, was: seq<Maybe<string>>) {
    |now| == |was| && forall k :: 0 <= k < |now| ==> now[k] == was[k] || now[k] == None
  }

  ghost predicate DistinctUpTo(s: seq<Maybe<string>>, n: nat) {
    forall i, j :: 0 <= i < n && i < j < |s| && s[i].Some? && s[j].Some? ==> s[i] != s[j]
  }

  ghost predicate NothingLost(now: seq<Maybe<string>>, was: seq<Maybe<string>>) {
    forall k :: 0 <= k < |was| && was[k].Some? ==> was[k] in now
  }

  method DropEqual(listv: array<Maybe<string>>, i: nat)
    requires i < listv.Length
    modifies listv
    ensures Thinned(listv[..], old(listv[..])) && NothingLost(listv[..], old(listv[..]))
    ensures forall k :: 0 <= k <= i ==> listv[k] == old(listv[k])
    ensures listv[i].Some? ==> forall k :: i < k < listv.Length ==> listv[k] != listv[i]
  {
    var j := i + 1;
    while j < listv.Length
      invariant i < j <= listv.Length
      invariant forall k :: 0 <= k <= i || j <= k < listv.Length ==> listv[k] == old(listv[k])
      invariant forall k :: i < k < j ==>
                              listv[k] == if old(listv[k]) == listv[i] then None else old(listv[k])
    {
      if listv[i].Some? && listv[j].Some? && listv[i].value == listv[j].value { listv[j] := None; }
      j := j + 1;
    }
    forall k | 0 <= k < listv.Length && old(listv[k]).Some? ensures old(listv[k]) in listv[..] {
      assert listv[..][k] == listv[k] && listv[..][i] == listv[i];
    }
  }

  method DropDuplicates(listv: array<Maybe<string>>)
    modifies listv
    ensures Thinned(listv[..], old(listv[..])) && NothingLost(listv[..], old(listv[..]))
    ensures DistinctUpTo(listv[..], listv.Length)
  {
    var i := 0;
    while i < listv.Length
      invariant i <= listv.Length
      invariant Thinned(listv[..], old(listv[..])) && NothingLost(listv[..], old(listv[..]))
      invariant DistinctUpTo(listv[..], i)
    {
      DropEqual(listv, i);
      i := i + 1;
    }
  }

  method IsClique(v: array<Opt>, s: string) returns (r: bool)
    ensures r == Clique(v[..], s)
  {
    var pc := 0;
    while pc < |s|
      invariant pc <= |s|
      invariant forall i, j :: 0 <= i < pc && 0 <= j < |s| && i != j ==> Clash(v[..], s[i], s[j])
    {
      var l := FindOption(v, s[pc]);
      var pc2 := 0;
      while pc2 < |s|
        invariant pc2 <= |s|
        invariant forall j :: 0 <= j < pc2 && j != pc ==> Clash(v[..], s[pc], s[j])
      {
        if pc2 != pc {
          var r := FindOption(v, s[pc2]);
          var excluded := DoExclude(v, l, r);
          if !excluded {
            assert !Clash(v[..], s[pc], s[pc2]);
            return false;
          }
        }
        pc2 := pc2 + 1;
      }
      pc := pc + 1;
    }
    return true;
  }

  method DropMixed(v: array<Opt>, listv: array<Maybe<string>>)
    modifies listv
    ensures forall k :: 0 <= k < listv.Length ==>
                          listv[k] == if old(listv[k]).Some? && Clique(v[..], old(listv[k]).value)
                                      then old(listv[k]) else None
  {
    var i := 0;
    while i < listv.Length
      invariant i <= listv.Length
      invariant forall k :: i <= k < listv.Length ==> listv[k] == old(listv[k])
      invariant forall k :: 0 <= k < i ==>
                              listv[k] == if old(listv[k]).Some? && Clique(v[..], old(listv[k]).value)
                                          then old(listv[k]) else None
    {
      if listv[i].Some? {
        var clique := IsClique(v, listv[i].value);
        if !clique { listv[i] := None; }
      }
      i := i + 1;
    }
  }

  // ---- The groups shown ----

  // The distinct groups around a listed option in which all exclude each other.
  ghost predicate Shown(v: seq<Opt>, list: string, groups: seq<Maybe<string>>) {
    && DistinctUpTo(groups, |groups|)
    && (forall g :: Some(g) in groups <==> Clique(v, g) && exists k: nat :: k < |list| && g == Around(v, list, k))
  }

  method Groups(v: array<Opt>, list: string) returns (listv: array<Maybe<string>>)
    ensures fresh(listv) && Shown(v[..], list, listv[..])
  {
    listv := BuildGroups(v, list);
    ghost var built := listv[..];
    DropDuplicates(listv);
    ghost var thinned := listv[..];
    DropMixed(v, listv);
    WhatIsLeft(v[..], list, built, thinned, listv[..]);
  }

  lemma {:induction false} WhatIsLeft(v: seq<Opt>, list: string, built: seq<Maybe<string>>, thinned: seq<Maybe<string>>,
                   left: seq<Maybe<string>>)
    requires |built| == |list| && forall k :: 0 <= k < |list| ==> built[k] == Some(Around(v, list, k))
    requires Thinned(thinned, built) && NothingLost(thinned, built) && DistinctUpTo(thinned, |thinned|)
    requires |left| == |thinned| && forall k :: 0 <= k < |left| ==>
               left[k] == if thinned[k].Some? && Clique(v, thinned[k].value) then thinned[k] else None
    ensures Shown(v, list, left)
  {
    forall g ensures Some(g) in left <==> Clique(v, g) && exists k: nat :: k < |list| && g == Around(v, list, k) {
      if Some(g) in left {
        var k :| 0 <= k < |left| && left[k] == Some(g);
        assert thinned[k] == built[k] == Some(Around(v, list, k));
      }
      if Clique(v, g) && exists k: nat :: k < |list| && g == Around(v, list, k) {
        var k: nat :| k < |list| && g == Around(v, list, k);
        assert built[k] in thinned;
        var m :| 0 <= m < |thinned| && thinned[m] == Some(g);
        assert left[m] == Some(g);
      }
    }
  }

  // Every group shown is a clique of listed options that no listed option could join.
  lemma {:induction false} ShownIsMaximal(v: seq<Opt>, list: string, groups: seq<Maybe<string>>, g: string, c: char)
    requires NoRepeats(list) && Shown(v, list, groups) && Some(g) in groups
    ensures Clique(v, g) && NoRepeats(g) && forall d :: d in g ==> d in list
    ensures c in list && c !in g ==> exists d :: d in g && !Clash(v, d, c)
  {
    var k: nat :| k < |list| && g == Around(v, list, k);
    GroupHolds(v, list, k, |list|);
    assert list[..|list|] == list;
    assert list[k] in g;
  }

  ghost function Letters(s: string): set<char> { set c | c in s }

  // Listed options that all exclude each other, and no other listed one excludes all
  // of them.
  ghost predicate MaximalClique(v: seq<Opt>, list: string, q: set<char>) {
    && q != {} && (forall c :: c in q ==> c in list)
    && (forall c, d :: c in q && d in q && c != d ==> Clash(v, c, d))
    && forall c :: c in list && c !in q ==> exists d :: d in q && !Clash(v, d, c)
  }

  // Option c excludes nothing outside q.
  ghost predicate KeepsTo(v: seq<Opt>, list: string, q: set<char>, c: char) {
    forall d :: d in list && Clash(v, c, d) ==> d in q
  }

  lemma {:induction false} AroundHolds(v: seq<Opt>, list: string, k: nat)
    requires k < |list| && NoRepeats(list)
    ensures NoRepeats(Around(v, list, k))
    ensures forall c :: c in Around(v, list, k) <==> c in list && (c == list[k] || Clash(v, list[k], c))
  {
    GroupHolds(v, list, k, |list|);
    assert list[..|list|] == list;
  }

  lemma {:induction false} AroundIsShown(v: seq<Opt>, list: string, groups: seq<Maybe<string>>, q: set<char>, k: nat)
    requires NoRepeats(list) && Shown(v, list, groups) && MaximalClique(v, list, q)
    requires k < |list| && list[k] in q && KeepsTo(v, list, q, list[k])
    ensures Some(Around(v, list, k)) in groups && Letters(Around(v, list, k)) == q
  {
    var g := Around(v, list, k);
    AroundHolds(v, list, k);
    assert Letters(g) == q;
    forall i, j | 0 <= i < |g| && 0 <= j < |g| && i != j ensures Clash(v, g[i], g[j]) {
      assert g[i] in Letters(g) && g[j] in Letters(g);
    }
  }

  lemma {:induction false} AroundKeeps(v: seq<Opt>, list: string, q: set<char>, k: nat)
    requires NoRepeats(list) && k < |list| && Letters(Around(v, list, k)) == q
    ensures list[k] in q && KeepsTo(v, list, q, list[k])
  {
    AroundHolds(v, list, k);
    assert list[k] in Letters(Around(v, list, k));
  }

  ghost predicate HasKeeper(v: seq<Opt>, list: string, q: set<char>) {
    exists c :: c in q && KeepsTo(v, list, q, c)
  }

  ghost predicate IsShown(groups: seq<Maybe<string>>, q: set<char>) {
    exists g :: Some(g) in groups && Letters(g) == q
  }

  lemma {:induction false} ShownHasKeeper(v: seq<Opt>, list: string, groups: seq<Maybe<string>>, q: set<char>)
    requires NoRepeats(list) && Shown(v, list, groups) && IsShown(groups, q)
    ensures HasKeeper(v, list, q)
  {
    var g :| Some(g) in groups && Letters(g) == q;
    var k: nat :| k < |list| && g == Around(v, list, k);
    AroundKeeps(v, list, q, k);
  }

  lemma {:induction false} KeeperIsShown(v: seq<Opt>, list: string, groups: seq<Maybe<string>>, q: set<char>)
    requires NoRepeats(list) && Shown(v, list, groups) && MaximalClique(v, list, q) && HasKeeper(v, list, q)
    ensures IsShown(groups, q)
  {
    var c :| c in q && KeepsTo(v, list, q, c);
    assert c in list;
    var k: nat :| k < |list| && list[k] == c;
    AroundIsShown(v, list, groups, q, k);
  }

  // Not every maximal clique is shown, only one with a member that excludes nothing
  // outside it.
  lemma {:induction false} MaximalCliqueShownIff(v: seq<Opt>, list: string, groups: seq<Maybe<string>>, q: set<char>)
    requires NoRepeats(list) && Shown(v, list, groups) && MaximalClique(v, list, q)
    ensures IsShown(groups, q) <==> HasKeeper(v, list, q)
  {
    if IsShown(groups, q) { ShownHasKeeper(v, list, groups, q); }
    if HasKeeper(v, list, q) { KeeperIsShown(v, list, groups, q); }
  }

  // A listed option is shown at all exactly if it or an option it excludes has a closed
  // neighbourhood in which all exclude each other.
  lemma {:induction false} OptionShownIff(v: seq<Opt>, list: string, groups: seq<Maybe<string>>, c: char)
    requires NoRepeats(list) && Shown(v, list, groups) && c in list
    ensures (exists g :: Some(g) in groups && c in g) <==>
            exists k: nat :: k < |list| && (list[k] == c || Clash(v, c, list[k])) && Clique(v, Around(v, list, k))
  {
    if exists g :: Some(g) in groups && c in g {
      var g :| Some(g) in groups && c in g;
      var k: nat :| k < |list| && g == Around(v, list, k);
      AroundHolds(v, list, k);
      ClashSymmetric(v, c, list[k]);
      assert Clique(v, Around(v, list, k));
    }
    if k: nat :| k < |list| && (list[k] == c || Clash(v, c, list[k])) && Clique(v, Around(v, list, k)) {
      AroundHolds(v, list, k);
      ClashSymmetric(v, c, list[k]);
      assert Some(Around(v, list, k)) in groups && c in Around(v, list, k);
    }
  }

  // In other words, exactly if it is in a maximal clique with a member that excludes
  // nothing outside it.
  lemma {:induction false} OptionShownWithKeeperIff(v: seq<Opt>, list: string, groups: seq<Maybe<string>>, c: char)
    requires NoRepeats(list) && Shown(v, list, groups)
    ensures (exists g :: Some(g) in groups && c in g) <==>
            exists q :: MaximalClique(v, list, q) && c in q && HasKeeper(v, list, q)
  {
    if exists g :: Some(g) in groups && c in g {
      var g :| Some(g) in groups && c in g;
      ShownIsClique(v, list, groups, g);
      ShownHasKeeper(v, list, groups, Letters(g));
      assert c in Letters(g);
    }
    if q :| MaximalClique(v, list, q) && c in q && HasKeeper(v, list, q) {
      KeeperIsShown(v, list, groups, q);
      var g :| Some(g) in groups && Letters(g) == q;
      assert c in g;
    }
  }

  lemma {:induction false} ShownIsClique(v: seq<Opt>, list: string, groups: seq<Maybe<string>>, g: string)
    requires NoRepeats(list) && Shown(v, list, groups) && Some(g) in groups
    ensures MaximalClique(v, list, Letters(g))
  {
    var k: nat :| k < |list| && g == Around(v, list, k);
    AroundHolds(v, list, k);
    assert list[k] in Letters(g);
    forall c, d | c in Letters(g) && d in Letters(g) && c != d ensures Clash(v, c, d) {
      var i :| 0 <= i < |g| && g[i] == c;
      var j :| 0 <= j < |g| && g[j] == d;
      assert Clash(v, g[i], g[j]);
    }
    forall c | c in list && c !in Letters(g) ensures exists d :: d in Letters(g) && !Clash(v, d, c) {
      assert list[k] in Letters(g) && !Clash(v, list[k], c);
    }
  }

  // ---- No two groups are the same set ----

  // The listed options in q, in list order.
  function Pick(list: string, q: set<char>, n: nat): string
    requires n <= |list|
  {
    if n == 0 then [] else Pick(list, q, n - 1) + if list[n - 1] in q then [list[n - 1]] else []
  }

  lemma {:induction false} GroupIsPick(v: seq<Opt>, list: string, k: nat, q: set<char>, n: nat)
    requires k < |list| && n <= |list|
    requires forall i :: 0 <= i < n ==> (list[i] in q <==> i == k || Clash(v, list[k], list[i]))
    ensures Group(v, list, k, n) == Pick(list, q, n)
  {
    if n > 0 { GroupIsPick(v, list, k, q, n - 1); }
  }

  lemma {:induction false} AroundIsPick(v: seq<Opt>, list: string, k: nat)
    requires NoRepeats(list) && k < |list|
    ensures Around(v, list, k) == Pick(list, Letters(Around(v, list, k)), |list|)
  {
    var q := Letters(Around(v, list, k));
    AroundHolds(v, list, k);
    forall i | 0 <= i < |list| ensures list[i] in q <==> i == k || Clash(v, list[k], list[i]) {
      assert list[i] in list;
    }
    GroupIsPick(v, list, k, q, |list|);
  }

  // Two groups shown are different sets of options.
  lemma {:induction false} ShownSetsDiffer(v: seq<Opt>, list: string, groups: seq<Maybe<string>>, i: nat, j: nat)
    requires NoRepeats(list) && Shown(v, list, groups)
    requires i < j < |groups| && groups[i].Some? && groups[j].Some?
    ensures Letters(groups[i].value) != Letters(groups[j].value)
  {
    var g, h := groups[i].value, groups[j].value;
    assert Some(g) in groups && Some(h) in groups;
    var k: nat :| k < |list| && g == Around(v, list, k);
    var m: nat :| m < |list| && h == Around(v, list, m);
    AroundIsPick(v, list, k);
    AroundIsPick(v, list, m);
    assert groups[i] != groups[j];
  }

  lemma {:induction false} MixedIsNotShown(v: seq<Opt>, list: string, groups: seq<Maybe<string>>, k: nat,
                                             a: char, b: char)
    requires NoRepeats(list) && Shown(v, list, groups) && k < |list|
    requires a in list && b in list && Clash(v, list[k], a) && Clash(v, list[k], b) && a != b && !Clash(v, a, b)
    ensures Some(Around(v, list, k)) !in groups
  {
    var g := Around(v, list, k);
    AroundHolds(v, list, k);
    var i :| 0 <= i < |g| && g[i] == a;
    var j :| 0 <= j < |g| && g[j] == b;
    assert !Clash(v, g[i], g[j]);
  }

  // Four options that exclude each other in a ring.
  function Ring(): seq<Opt> {
    [Opt('a', Some("b"), None, false, 0), Opt('b', Some("c"), None, false, 0),
     Opt('c', Some("d"), None, false, 0), Opt('d', Some("a"), None, false, 0)]
  }

  lemma {:induction false} RingClashes()
    ensures var v := Ring();
            && Clash(v, 'a', 'b') && Clash(v, 'b', 'c') && Clash(v, 'c', 'd') && Clash(v, 'd', 'a')
            && !Clash(v, 'a', 'c') && !Clash(v, 'b', 'd')
  {
    var v := Ring();
    FindIs(v, 'a', 0);
    FindIs(v, 'b', 1);
    FindIs(v, 'c', 2);
    FindIs(v, 'd', 3);
  }

  lemma {:induction false} RingOfFour(v: seq<Opt>, list: string, groups: seq<Maybe<string>>, g: string)
    requires |list| == 4 && NoRepeats(list) && Shown(v, list, groups)
    requires Clash(v, list[0], list[1]) && Clash(v, list[1], list[2])
    requires Clash(v, list[2], list[3]) && Clash(v, list[3], list[0])
    requires !Clash(v, list[0], list[2]) && !Clash(v, list[1], list[3])
    ensures Some(g) !in groups
  {
    ClashSymmetric(v, list[0], list[1]);
    ClashSymmetric(v, list[1], list[2]);
    ClashSymmetric(v, list[2], list[3]);
    ClashSymmetric(v, list[3], list[0]);
    MixedIsNotShown(v, list, groups, 0, list[1], list[3]);
    MixedIsNotShown(v, list, groups, 1, list[0], list[2]);
    MixedIsNotShown(v, list, groups, 2, list[1], list[3]);
    MixedIsNotShown(v, list, groups, 3, list[0], list[2]);
  }

  // None of them is in any group, so options that exclude others can go unshown.
  lemma {:induction false} RingIsNotShown(groups: seq<Maybe<string>>, g: string)
    requires Shown(Ring(), "abcd", groups)
    ensures Some(g) !in groups
  {
    RingClashes();
    RingOfFour(Ring(), "abcd", groups, g);
  }
}

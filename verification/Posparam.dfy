/** Positional parameters: how many arguments they could take, and who gets which. */
module Posparam {

  import opened Chars

  const CLP_POSPARAM_MAX: nat := 4096
  const NAMEBUF: nat := 128

  // `subcmd` says whether the parameter selects a subcommand; argv is the index of
  // the first argument given to it, or -1.
  datatype Param = Param(name: string, subcmd: bool, posmin: int, posmax: int, argc: int, argv: int)

  // ---- What a name says: [name...] ----

  predicate IsBracket(c: char) { c == '[' || c == ']' }

  // Open brackets before the first other character that is no space.
  function OpenBrackets(name: string): nat {
    if name == [] || !(IsSpace(name[0]) || name[0] == '[') then 0
    else (if name[0] == '[' then 1 else 0) + OpenBrackets(name[1..])
  }

  function SkipOpen(name: string): string {
    if name == [] || !(IsSpace(name[0]) || name[0] == '[') then name else SkipOpen(name[1..])
  }

  function UpToBracket(name: string): string {
    if name == [] || IsBracket(name[0]) then [] else [name[0]] + UpToBracket(name[1..])
  }

  function TrimEnd(name: string): string {
    if name == [] || !IsSpace(name[|name| - 1]) then name else TrimEnd(name[..|name| - 1])
  }

  // What clp_unbracket leaves in its buffer.
  function Unbracket(name: string): string {
    var s := SkipOpen(name);
    TrimEnd(UpToBracket(if |s| < NAMEBUF then s else s[..NAMEBUF - 1]))
  }

  // clp_unbracket: count, copy what the buffer holds, cut at a bracket, trim.
  method StripName(name: string) returns (obrackets: nat, buf: string)
    ensures obrackets == OpenBrackets(name) && buf == Unbracket(name)
  {
    var i := 0;
    obrackets := 0;
    assert name[0..] == name;
    while i < |name| && (IsSpace(name[i]) || name[i] == '[')
      invariant i <= |name| && obrackets + OpenBrackets(name[i..]) == OpenBrackets(name)
      invariant SkipOpen(name[i..]) == SkipOpen(name)
    {
      assert name[i..][1..] == name[i + 1..];
      if name[i] == '[' { obrackets := obrackets + 1; }
      i := i + 1;
    }
    buf := name[i..];
    if |buf| >= NAMEBUF { buf := buf[..NAMEBUF - 1]; }
    buf := CutAtBracket(buf);
    buf := CutSpaces(buf);
  }

  method CutAtBracket(s: string) returns (buf: string)
    ensures buf == UpToBracket(s)
  {
    var i := 0;
    assert s[0..] == s;
    while i < |s| && !IsBracket(s[i])
      invariant i <= |s| && s[..i] + UpToBracket(s[i..]) == UpToBracket(s)
    {
      assert s[i..][1..] == s[i + 1..];
      i := i + 1;
    }
    buf := s[..i];
  }

  method CutSpaces(s: string) returns (buf: string)
    ensures buf == TrimEnd(s)
  {
    var end := |s|;
    assert s[..end] == s;
    while end > 0 && IsSpace(s[end - 1])
      invariant end <= |s| && TrimEnd(s[..end]) == TrimEnd(s)
    {
      assert s[..end][..end - 1] == s[..end - 1];
      end := end - 1;
    }
    buf := s[..end];
  }

  // A word that is its own name: no brackets, no spaces around it.
  predicate IsName(w: string) {
    && w != [] && !IsSpace(w[0]) && !IsSpace(w[|w| - 1])
    && forall i :: 0 <= i < |w| ==> w[i] != '[' && w[i] != ']'
  }

  predicate Opens(c: char) { IsSpace(c) || c == '[' }

  function Opened(open: string): nat {
    if open == [] then 0 else (if open[0] == '[' then 1 else 0) + Opened(open[1..])
  }

  // A name behind brackets and spaces, with spaces behind it up to a bracket or the end.
  ghost predicate Encloses(open: string, w: string, spaces: string, tail: string) {
    && (forall i :: 0 <= i < |open| ==> Opens(open[i])) && IsName(w)
    && (forall i :: 0 <= i < |spaces| ==> IsSpace(spaces[i]))
    && (tail == [] || tail[0] == '[' || tail[0] == ']')
  }

  function Laid(open: string, w: string, spaces: string, tail: string): string { open + (w + (spaces + tail)) }

  // Of a name that fits the buffer of 128, in brackets balanced or not, the name is left,
  // and the brackets before it are counted.
  lemma {:induction false} UnbracketName(open: string, w: string, spaces: string, tail: string)
    requires Encloses(open, w, spaces, tail) && |w| < 128
    ensures OpenBrackets(Laid(open, w, spaces, tail)) == Opened(open)
    ensures Unbracket(Laid(open, w, spaces, tail)) == w
  {
    SkipOpened(open, w + (spaces + tail));
    HeldName(w, spaces, tail);
  }

  // The name in the buffer, with as many of the spaces as there is room for.
  lemma {:induction false} HeldName(w: string, spaces: string, tail: string)
    requires Encloses([], w, spaces, tail) && |w| < 128
    ensures var s := w + (spaces + tail);
            TrimEnd(UpToBracket(if |s| < NAMEBUF then s else s[..NAMEBUF - 1])) == w
  {
    var s := w + (spaces + tail);
    var held := if |s| < NAMEBUF then s else s[..NAMEBUF - 1];
    var room := if |w| + |spaces| < NAMEBUF then |spaces| else NAMEBUF - 1 - |w|;
    LaidPrefix(w, spaces, tail, room);
    if room == |spaces| && tail != [] { LaidTail(w, spaces, tail); }
    UpToSpaces(held, w, spaces[..room]);
    TrimSpaces(w, spaces[..room]);
  }

  lemma {:induction false} LaidPrefix(w: string, spaces: string, tail: string, room: nat)
    requires room <= |spaces|
    ensures (w + (spaces + tail))[..|w| + room] == w + spaces[..room]
  {
  }

  lemma {:induction false} LaidTail(w: string, spaces: string, tail: string)
    requires tail != []
    ensures (w + (spaces + tail))[|w| + |spaces|] == tail[0]
  {
  }

  lemma {:induction false} UpToSpaces(held: string, w: string, spaces: string)
    requires IsName(w) && (forall i :: 0 <= i < |spaces| ==> IsSpace(spaces[i]))
    requires |w| + |spaces| <= |held| && held[..|w| + |spaces|] == w + spaces
    requires |held| > |w| + |spaces| ==> held[|w| + |spaces|] == '[' || held[|w| + |spaces|] == ']'
    ensures UpToBracket(held) == w + spaces
  {
    forall i | 0 <= i < |w| + |spaces| ensures held[i] != '[' && held[i] != ']' {
      assert held[i] == (w + spaces)[i];
    }
    CutName(held, |w| + |spaces|);
  }

  // A longer one is cut to 127 characters.
  lemma {:induction false} LongNameCut(open: string, w: string, tail: string)
    requires Encloses(open, w, [], tail) && |w| >= 128 && !IsSpace(w[126])
    ensures Unbracket(open + (w + tail)) == w[..127]
  {
    var s := w + tail;
    SkipOpened(open, s);
    assert s[..NAMEBUF - 1] == w[..NAMEBUF - 1];
    CutName(w[..NAMEBUF - 1], NAMEBUF - 1);
    assert w[..NAMEBUF - 1][..NAMEBUF - 1] == w[..NAMEBUF - 1];
  }

  lemma {:induction false} SkipOpened(open: string, s: string)
    requires (forall i :: 0 <= i < |open| ==> Opens(open[i])) && s != [] && !Opens(s[0])
    ensures OpenBrackets(open + s) == Opened(open) && SkipOpen(open + s) == s
  {
    if open == [] {
      assert open + s == s;
    } else {
      SkipOpened(open[1..], s);
      assert (open + s)[1..] == open[1..] + s;
    }
  }

  // Nothing is cut before the first bracket.
  lemma {:induction false} CutName(s: string, n: nat)
    requires n <= |s| && (forall i :: 0 <= i < n ==> s[i] != '[' && s[i] != ']')
    requires n == |s| || s[n] == '[' || s[n] == ']'
    ensures UpToBracket(s) == s[..n]
  {
    if n > 0 {
      CutName(s[1..], n - 1);
      assert [s[0]] + s[1..][..n - 1] == s[..n];
    }
  }

  lemma {:induction false} TrimSpaces(w: string, spaces: string)
    requires IsName(w) && forall i :: 0 <= i < |spaces| ==> IsSpace(spaces[i])
    ensures TrimEnd(w + spaces) == w
  {
    if spaces == [] {
      assert w + spaces == w;
    } else {
      var front := spaces[..|spaces| - 1];
      TrimSpaces(w, front);
      assert (w + spaces)[..|w + spaces| - 1] == w + front;
    }
  }

  // What the two marks of a name mean: dots at its end, and brackets around it.
  lemma {:induction false} MarksTell(p: Param, open: string, w: string, spaces: string, tail: string)
    requires Encloses(open, w, spaces, tail) && |w| < 128 && p.name == Laid(open, w, spaces, tail)
    ensures Variadic(p) <==> p.subcmd || exists u :: w == u + "..."
    ensures Optional(p) <==> '[' in open
  {
    UnbracketName(open, w, spaces, tail);
    OpenedTells(open);
    if Dotted(w) { assert w == w[..|w| - 3] + "..."; }
    if u :| w == u + "..." { assert w[|w| - 3..] == "..."; }
  }

  lemma {:induction false} OpenedTells(open: string)
    ensures Opened(open) > 0 <==> '[' in open
  {
    if open != [] { OpenedTells(open[1..]); }
  }

  predicate Optional(p: Param) { OpenBrackets(p.name) > 0 }

  // Takes any number of arguments.
  predicate Variadic(p: Param) { Dotted(Unbracket(p.name)) || p.subcmd }

  predicate Dotted(s: string) { |s| >= 3 && s[|s| - 3..] == "..." }

  // ---- The least and the most they take ----

  // What matters of a parameter: whether it must get an argument, and whether it may
  // get many.
  datatype Shape = Shape(must: bool, many: bool)

  function ShapeOf(p: Param): Shape { Shape(!Optional(p), Variadic(p)) }

  // Nothing is looked at behind a subcommand.
  function Active(params: seq<Param>): (n: nat)
    ensures n <= |params| && (n < |params| ==> n > 0 && params[n - 1].subcmd)
    ensures forall i :: 0 <= i < n - 1 ==> !params[i].subcmd
  {
    if params == [] then 0 else if params[0].subcmd then 1 else 1 + Active(params[1..])
  }

  function Shapes(params: seq<Param>): seq<Shape> {
    seq(Active(params), i requires 0 <= i < Active(params) => ShapeOf(params[i]))
  }

  function Mins(ps: seq<Shape>): nat {
    if ps == [] then 0 else (if ps[0].must then 1 else 0) + Mins(ps[1..])
  }

  function Maxs(ps: seq<Shape>): nat {
    if ps == [] then 0 else (if ps[0].many then CLP_POSPARAM_MAX else 1) + Maxs(ps[1..])
  }

  // ---- Greedy distribution ----

  // The parameter at the head of the line takes all that the mandatory ones can spare.
  function Takes(p: Shape, argc: nat, posmin: nat): nat
    requires posmin <= argc
  {
    (if p.must then 1 else 0) + (if p.many then argc - posmin else if !p.must && argc > posmin then 1 else 0)
  }

  // Each parameter in turn is served so.
  function Greedy(ps: seq<Shape>, argc: nat): (counts: seq<nat>)
    requires Mins(ps) <= argc
    ensures |counts| == |ps|
  {
    if ps == [] then []
    else
      var c := Takes(ps[0], argc, Mins(ps));
      [c] + Greedy(ps[1..], argc - c)
  }

  function Sum(counts: seq<nat>): nat { if counts == [] then 0 else counts[0] + Sum(counts[1..]) }

  // An assignment of all the arguments that gives each parameter what it may have.
  ghost predicate Fair(ps: seq<Shape>, counts: seq<nat>, argc: nat) {
    && |counts| == |ps| && Sum(counts) == argc
    && forall i :: 0 <= i < |ps| ==> FairAt(ps[i], counts[i])
  }

  predicate FairAt(p: Shape, c: nat) { (p.must ==> c >= 1) && (!p.many ==> c <= 1) }

  // The first count that differs is larger.
  ghost predicate LexAtLeast(a: seq<nat>, b: seq<nat>)
    requires |a| == |b|
  {
    a != [] ==> a[0] > b[0] || (a[0] == b[0] && LexAtLeast(a[1..], b[1..]))
  }

  predicate AnyMany(ps: seq<Shape>) { exists i :: 0 <= i < |ps| && ps[i].many }

  lemma {:induction false} MaxsSmall(ps: seq<Shape>)
    requires !AnyMany(ps)
    ensures Maxs(ps) == |ps|
  {
    if ps != [] {
      assert !ps[0].many;
      forall i | 0 <= i < |ps[1..]| ensures !ps[1..][i].many { assert ps[1..][i] == ps[i + 1]; }
      MaxsSmall(ps[1..]);
    }
  }

  lemma {:induction false} MinsBelow(ps: seq<Shape>)
    ensures Mins(ps) <= |ps|
  {
    if ps != [] { MinsBelow(ps[1..]); }
  }

  // Within the limits every argument is given away, and fairly.
  lemma {:induction false} GreedyIsFair(ps: seq<Shape>, argc: nat)
    requires Mins(ps) <= argc && (AnyMany(ps) || argc <= |ps|)
    ensures Fair(ps, Greedy(ps, argc), argc)
  {
    if ps != [] {
      var counts := Greedy(ps, argc);
      var rest := ps[1..];
      if !ps[0].many && AnyMany(ps) {
        var i :| 0 <= i < |ps| && ps[i].many;
        assert rest[i - 1].many;
      }
      MinsBelow(rest);
      GreedyIsFair(rest, argc - counts[0]);
      forall i | 0 <= i < |ps| ensures FairAt(ps[i], counts[i]) {
        if i > 0 { assert FairAt(rest[i - 1], counts[1..][i - 1]); }
      }
      assert counts[1..] == Greedy(rest, argc - counts[0]);
    }
  }

  lemma {:induction false} FairNeedsMins(ps: seq<Shape>, counts: seq<nat>, argc: nat)
    requires Fair(ps, counts, argc)
    ensures Mins(ps) <= argc && (AnyMany(ps) || argc <= |ps|)
  {
    if ps != [] {
      var rest := ps[1..];
      assert FairAt(ps[0], counts[0]);
      forall i | 0 <= i < |rest| ensures FairAt(rest[i], counts[1..][i]) { assert FairAt(ps[i + 1], counts[i + 1]); }
      FairNeedsMins(rest, counts[1..], argc - counts[0]);
      if AnyMany(rest) {
        var i :| 0 <= i < |rest| && rest[i].many;
        assert ps[i + 1].many;
      }
    }
  }

  // It is the greatest of all fair assignments, parameter by parameter.
  lemma {:induction false} GreedyIsGreatest(ps: seq<Shape>, counts: seq<nat>, argc: nat)
    requires Fair(ps, counts, argc)
    ensures Mins(ps) <= argc && LexAtLeast(Greedy(ps, argc), counts)
  {
    FairNeedsMins(ps, counts, argc);
    if ps != [] {
      var rest, g := ps[1..], Greedy(ps, argc);
      assert FairAt(ps[0], counts[0]);
      forall i | 0 <= i < |rest| ensures FairAt(rest[i], counts[1..][i]) { assert FairAt(ps[i + 1], counts[i + 1]); }
      assert Fair(rest, counts[1..], argc - counts[0]);
      FairNeedsMins(rest, counts[1..], argc - counts[0]);
      if g[0] == counts[0] {
        GreedyIsGreatest(rest, counts[1..], argc - counts[0]);
        assert g[1..] == Greedy(rest, argc - g[0]);
      }
    }
  }

  lemma {:induction false} FairExistsIff(ps: seq<Shape>, argc: nat)
    ensures (exists counts :: Fair(ps, counts, argc)) <==> Mins(ps) <= argc && (AnyMany(ps) || argc <= |ps|)
  {
    if exists counts :: Fair(ps, counts, argc) {
      var counts :| Fair(ps, counts, argc);
      FairNeedsMins(ps, counts, argc);
    }
    if Mins(ps) <= argc && (AnyMany(ps) || argc <= |ps|) { GreedyIsFair(ps, argc); }
  }

  // ---- What is accepted ----

  // The counts the program announces: a variadic parameter is promised 4096 at most.
  ghost predicate Capped(ps: seq<Shape>, counts: seq<nat>)
    requires |counts| == |ps|
  {
    forall i :: 0 <= i < |ps| && ps[i].many ==> counts[i] <= CLP_POSPARAM_MAX
  }

  ghost function SomeCapped(ps: seq<Shape>, argc: nat): (counts: seq<nat>)
    requires Mins(ps) <= argc <= Maxs(ps)
    ensures Fair(ps, counts, argc) && Capped(ps, counts)
  {
    if ps == [] then []
    else
      MinsBelow(ps[1..]);
      MinsUnderMaxs(ps[1..]);
      var least := if ps[0].must then 1 else 0;
      var over := argc - Maxs(ps[1..]);
      var c := if over <= least then least else over;
      var rest := SomeCapped(ps[1..], argc - c);
      assert forall i :: 0 < i < |ps| ==> ps[i] == ps[1..][i - 1] && FairAt(ps[1..][i - 1], rest[i - 1]);
      [c] + rest
  }

  lemma {:induction false} MinsUnderMaxs(ps: seq<Shape>)
    ensures Mins(ps) <= Maxs(ps)
  {
    if ps != [] { MinsUnderMaxs(ps[1..]); }
  }

  lemma {:induction false} CappedBelowMaxs(ps: seq<Shape>, counts: seq<nat>, argc: nat)
    requires Fair(ps, counts, argc) && Capped(ps, counts)
    ensures argc <= Maxs(ps)
  {
    if ps != [] {
      assert FairAt(ps[0], counts[0]);
      var rest := ps[1..];
      forall i | 0 <= i < |rest| ensures FairAt(rest[i], counts[1..][i]) { assert FairAt(ps[i + 1], counts[i + 1]); }
      CappedBelowMaxs(rest, counts[1..], argc - counts[0]);
    }
  }

  // The two limits admit exactly the argument counts that can be given away with no
  // variadic parameter above its maximum.
  lemma {:induction false} AcceptsIff(ps: seq<Shape>, argc: nat)
    ensures Mins(ps) <= argc <= Maxs(ps) <==> exists counts :: Fair(ps, counts, argc) && Capped(ps, counts)
  {
    if Mins(ps) <= argc <= Maxs(ps) {
      var counts := SomeCapped(ps, argc);
    }
    if exists counts :: Fair(ps, counts, argc) && Capped(ps, counts) {
      var counts :| Fair(ps, counts, argc) && Capped(ps, counts);
      FairNeedsMins(ps, counts, argc);
      CappedBelowMaxs(ps, counts, argc);
    }
  }

  // The distribution itself knows no such maximum.  How many optional parameters stand
  // before the first variadic one, and whether that one is mandatory:
  function OptionalsFirst(ps: seq<Shape>): nat {
    if ps == [] || ps[0].many then 0 else (if ps[0].must then 0 else 1) + OptionalsFirst(ps[1..])
  }

  function FirstMust(ps: seq<Shape>): (n: nat)
    ensures n <= 1
  {
    if ps == [] then 0 else if ps[0].many then (if ps[0].must then 1 else 0) else FirstMust(ps[1..])
  }

  lemma {:induction false} AnyManySplit(ps: seq<Shape>)
    requires ps != []
    ensures AnyMany(ps) <==> ps[0].many || AnyMany(ps[1..])
  {
    if AnyMany(ps[1..]) {
      var i :| 0 <= i < |ps[1..]| && ps[1..][i].many;
      assert ps[i + 1].many;
    }
    if AnyMany(ps) && !ps[0].many {
      var i :| 0 <= i < |ps| && ps[i].many;
      assert ps[1..][i - 1].many;
    }
  }

  lemma {:induction false} CappedSplit(ps: seq<Shape>, counts: seq<nat>)
    requires ps != [] && |counts| == |ps|
    ensures Capped(ps, counts) <==> (ps[0].many ==> counts[0] <= CLP_POSPARAM_MAX) && Capped(ps[1..], counts[1..])
  {
    var rest, more := ps[1..], counts[1..];
    if (ps[0].many ==> counts[0] <= CLP_POSPARAM_MAX) && Capped(rest, more) {
      forall i | 0 <= i < |ps| && ps[i].many ensures counts[i] <= CLP_POSPARAM_MAX {
        if i > 0 { assert rest[i - 1].many && more[i - 1] == counts[i]; }
      }
    }
    if Capped(ps, counts) {
      forall i | 0 <= i < |rest| && rest[i].many ensures more[i] <= CLP_POSPARAM_MAX { assert ps[i + 1].many; }
    }
  }

  // With nothing to spare nobody gets many.
  lemma {:induction false} NoneToSpare(ps: seq<Shape>)
    ensures Capped(ps, Greedy(ps, Mins(ps)))
  {
    if ps != [] {
      NoneToSpare(ps[1..]);
      CappedSplit(ps, Greedy(ps, Mins(ps)));
    }
  }

  // Exactly when every parameter stays within its maximum: what is left for the first
  // variadic one, behind the optional ones before it, has to.
  lemma {:induction false} WithinMaximumIff(ps: seq<Shape>, argc: nat)
    requires Mins(ps) <= argc
    ensures Capped(ps, Greedy(ps, argc)) <==>
            (AnyMany(ps) ==> argc + FirstMust(ps) <= Mins(ps) + OptionalsFirst(ps) + CLP_POSPARAM_MAX)
  {
    if ps != [] {
      var rest, counts := ps[1..], Greedy(ps, argc);
      AnyManySplit(ps);
      CappedSplit(ps, counts);
      if ps[0].many { NoneToSpare(rest); } else { WithinMaximumIff(rest, argc - counts[0]); }
    }
  }

  // So the count check does not keep the maxima: 4097 arguments are accepted for a
  // mandatory variadic parameter and an optional one, and the first takes them all.
  lemma {:induction false} AcceptedAboveMaximum()
    ensures var ps := [Shape(true, true), Shape(false, false)];
            Mins(ps) <= 4097 <= Maxs(ps) && Greedy(ps, 4097) == [4097, 0] && !Capped(ps, Greedy(ps, 4097))
  {
    var ps := [Shape(true, true), Shape(false, false)];
    assert ps[1..] == [Shape(false, false)] && ps[1..][1..] == [];
    assert Mins(ps[1..]) == 0 && Maxs(ps[1..]) == 1;
    assert Greedy(ps[1..], 0) == [0];
    assert ps[0].many;
  }

  // What an accepted command line does: all arguments are given away, in a fair way
  // no other fair way beats.
  lemma {:induction false} AcceptedIsGivenAway(ps: seq<Shape>, argc: nat)
    requires Mins(ps) <= argc <= Maxs(ps)
    ensures Fair(ps, Greedy(ps, argc), argc)
    ensures forall counts :: Fair(ps, counts, argc) ==> LexAtLeast(Greedy(ps, argc), counts)
  {
    if !AnyMany(ps) { MaxsSmall(ps); }
    GreedyIsFair(ps, argc);
    forall counts | Fair(ps, counts, argc) ensures LexAtLeast(Greedy(ps, argc), counts) {
      GreedyIsGreatest(ps, counts, argc);
    }
  }

  // ---- The slices of the argument vector ----

  function Offset(counts: seq<nat>, i: nat): nat
    requires i <= |counts|
  {
    if i == 0 then 0 else Offset(counts, i - 1) + counts[i - 1]
  }

  lemma {:induction false} OffsetShift(counts: seq<nat>, i: nat)
    requires counts != [] && 1 <= i <= |counts|
    ensures Offset(counts, i) == counts[0] + Offset(counts[1..], i - 1)
  {
    if i > 1 { OffsetShift(counts, i - 1); }
  }

  lemma {:induction false} OffsetEnd(counts: seq<nat>)
    ensures Offset(counts, |counts|) == Sum(counts)
  {
    if counts != [] {
      OffsetShift(counts, |counts|);
      OffsetEnd(counts[1..]);
    }
  }

  lemma {:induction false} OffsetGrows(counts: seq<nat>, i: nat, j: nat)
    requires i <= j <= |counts|
    ensures Offset(counts, i) <= Offset(counts, j)
  {
    if i < j { OffsetGrows(counts, i, j - 1); }
  }

  // The arguments a parameter is left with, read from its argv and argc.
  predicate HoldsSlice(p: Param, args: seq<string>) {
    p.argc == 0 || (p.argc > 0 && 0 <= p.argv && p.argv + p.argc <= |args|)
  }

  function SliceOf(p: Param, args: seq<string>): seq<string> {
    if p.argc != 0 && HoldsSlice(p, args) then args[p.argv..p.argv + p.argc] else []
  }

  function Slices(params: seq<Param>, args: seq<string>): seq<string> {
    if params == [] then [] else Slices(params[..|params| - 1], args) + SliceOf(params[|params| - 1], args)
  }

  // ---- The two loops over the parameter vector ----

  function Limited(p: Param): Param {
    p.(posmin := if Optional(p) then 0 else 1, posmax := if Variadic(p) then CLP_POSPARAM_MAX else 1)
  }

  lemma {:induction false} SumsMove(ps: seq<Shape>, i: nat)
    requires i < |ps|
    ensures Mins(ps[i..]) == (if ps[i].must then 1 else 0) + Mins(ps[i + 1..])
    ensures Maxs(ps[i..]) == (if ps[i].many then CLP_POSPARAM_MAX else 1) + Maxs(ps[i + 1..])
  {
    assert ps[i..][0] == ps[i] && ps[i..][1..] == ps[i + 1..];
  }

  method SetLimits(params: array<Param>, i: nat)
    requires i < params.Length
    modifies params
    ensures params[..] == old(params[..])[i := Limited(old(params[i]))]
  {
    var obrackets, namebuf := StripName(params[i].name);
    params[i] := params[i].(posmin := if obrackets > 0 then 0 else 1);
    params[i] := params[i].(posmax := if Dotted(namebuf) || params[i].subcmd then CLP_POSPARAM_MAX else 1);
  }

  // The loop with `i` limits set.
  ghost predicate LimitsSet(now: seq<Param>, was: seq<Param>, i: nat) {
    && |now| == |was| && i <= Active(was)
    && (forall k :: 0 <= k < i ==> now[k] == Limited(was[k]))
    && forall k :: i <= k < |was| ==> now[k] == was[k]
  }

  lemma {:induction false} LimitSet(now: seq<Param>, was: seq<Param>, i: nat)
    requires LimitsSet(now, was, i) && i < Active(was)
    ensures LimitsSet(now[i := Limited(now[i])], was, i + 1) && now[i] == was[i]
  {
  }

  // The sums of the first i limits.
  ghost predicate Summed(was: seq<Param>, i: nat, posmin: nat, posmax: nat)
    requires i <= Active(was)
  {
    var ps := Shapes(was);
    posmin + Mins(ps[i..]) == Mins(ps) && posmax + Maxs(ps[i..]) == Maxs(ps)
  }

  lemma {:induction false} SumLimit(was: seq<Param>, i: nat, posmin: nat, posmax: nat)
    requires i < Active(was) && Summed(was, i, posmin, posmax)
    ensures var p := Limited(was[i]); Summed(was, i + 1, posmin + p.posmin, posmax + p.posmax)
  {
    SumsMove(Shapes(was), i);
    assert Shapes(was)[i] == ShapeOf(was[i]);
  }

  lemma {:induction false} SummedUp(was: seq<Param>, posmin: nat, posmax: nat)
    requires Summed(was, Active(was), posmin, posmax)
    ensures posmin == Mins(Shapes(was)) && posmax == Maxs(Shapes(was))
  {
  }

  lemma {:induction false} NothingSummed(was: seq<Param>)
    ensures Summed(was, 0, 0, 0)
  {
    assert Shapes(was)[0..] == Shapes(was);
  }

  method MinMax(params: array<Param>) returns (posmin: nat, posmax: nat)
    modifies params
    ensures posmin == Mins(Shapes(old(params[..]))) && posmax == Maxs(Shapes(old(params[..])))
    ensures LimitsSet(params[..], old(params[..]), Active(old(params[..])))
  {
    ghost var was := params[..];
    posmin, posmax := 0, 0;
    NothingSummed(was);
    var i := 0;
    while i < params.Length
      invariant LimitsSet(params[..], was, i) && Summed(was, i, posmin, posmax)
      invariant i == params.Length || i < Active(was)
    {
      LimitSet(params[..], was, i);
      SumLimit(was, i, posmin, posmax);
      ActiveEnds(was, i);
      SetLimits(params, i);
      posmin := posmin + params[i].posmin;
      posmax := posmax + params[i].posmax;
      if params[i].subcmd {
        SummedUp(was, posmin, posmax);
        return;
      }
      i := i + 1;
    }
    SummedUp(was, posmin, posmax);
  }

  lemma {:induction false} ActiveEnds(was: seq<Param>, i: nat)
    requires i < Active(was)
    ensures if was[i].subcmd then i + 1 == Active(was) else i + 1 < Active(was) || i + 1 == |was|
  {
  }

  ghost predicate Limits(params: seq<Param>) {
    forall i :: 0 <= i < Active(params) ==> params[i] == Limited(params[i])
  }

  ghost predicate AtReset(params: seq<Param>) {
    forall i :: 0 <= i < |params| ==> params[i].argc == 0 && params[i].argv == -1
  }

  // What the distribution leaves in parameter k.
  ghost predicate Given(p: Param, was: Param, counts: seq<nat>, k: nat, argc: nat)
    requires k < |counts|
  {
    && p == was.(argc := p.argc, argv := p.argv)
    && p.argc == counts[k]
    && p.argv == if Offset(counts, k) < argc then Offset(counts, k) else -1
  }

  // One turn of the loop.
  method Give(params: array<Param>, i: nat, argv: nat, argc: nat, posmin: nat) returns (posmin': nat)
    requires i < params.Length && posmin <= argc
    requires params[i] == Limited(params[i]) && (!Optional(params[i]) ==> posmin > 0)
    modifies params
    ensures params[..] == old(params[..])[i := old(params[i]).(
                                                argv := argv, argc := Takes(ShapeOf(old(params[i])), argc, posmin))]
    ensures posmin' == if Optional(old(params[i])) then posmin else posmin - 1
  {
    posmin' := posmin;
    params[i] := params[i].(argv := argv, argc := 0);
    if params[i].posmin == 1 {
      params[i] := params[i].(argc := 1);
      if params[i].posmax > 1 { params[i] := params[i].(argc := params[i].argc + (argc - posmin)); }
      posmin' := posmin - 1;
    } else if argc > posmin {
      params[i] := params[i].(argc := if params[i].posmax > 1 then argc - posmin else 1);
    }
  }

  // The counts with `i` parameters served: the greedy ones so far, and those to come.
  ghost predicate Counting(ps: seq<Shape>, counts: seq<nat>, total: nat, i: nat, argc: nat, posmin: nat) {
    && i <= |ps| == |counts| && argc <= total
    && posmin == Mins(ps[i..]) <= argc
    && Offset(counts, i) == total - argc && counts[i..] == Greedy(ps[i..], argc)
  }

  ghost predicate Storing(now: seq<Param>, was: seq<Param>, counts: seq<nat>, total: nat, i: nat) {
    && |now| == |was| && i <= |counts| <= |was|
    && (forall k :: 0 <= k < i ==> Given(now[k], was[k], counts, k, total))
    && forall k :: i <= k < |was| ==> now[k] == was[k]
  }

  // The loop with `i` parameters served.
  ghost predicate Served(now: seq<Param>, was: seq<Param>, total: nat, i: nat, argc: nat, posmin: nat)
    requires Mins(Shapes(was)) <= total
  {
    var counts := Greedy(Shapes(was), total);
    Counting(Shapes(was), counts, total, i, argc, posmin) && Storing(now, was, counts, total, i)
  }

  lemma {:induction false} CountTurn(ps: seq<Shape>, counts: seq<nat>, total: nat, i: nat, argc: nat, posmin: nat)
    requires Counting(ps, counts, total, i, argc, posmin) && i < |ps| && argc > 0
    ensures counts[i] == Takes(ps[i], argc, posmin) <= argc
    ensures ps[i].must ==> posmin > 0
    ensures Counting(ps, counts, total, i + 1, argc - counts[i], if ps[i].must then posmin - 1 else posmin)
  {
    GreedyHead(ps, counts, i, argc);
  }

  lemma {:induction false} EnoughForTurn(now: seq<Param>, was: seq<Param>, total: nat, i: nat, argc: nat, posmin: nat)
    requires Mins(Shapes(was)) <= total && Served(now, was, total, i, argc, posmin)
    requires i < Active(was) && argc > 0
    ensures Optional(was[i]) || posmin > 0
    ensures Takes(ShapeOf(was[i]), argc, posmin) <= argc
  {
    CountTurn(Shapes(was), Greedy(Shapes(was), total), total, i, argc, posmin);
  }

  lemma {:induction false} StoreTurn(now: seq<Param>, was: seq<Param>, counts: seq<nat>, total: nat, i: nat, p: Param)
    requires Storing(now, was, counts, total, i) && i < |counts| && Given(p, was[i], counts, i, total)
    ensures Storing(now[i := p], was, counts, total, i + 1)
  {
  }

  lemma {:induction false} ServedTurn(now: seq<Param>, was: seq<Param>, total: nat, i: nat, argc: nat, posmin: nat,
                                        p: Param, argc': nat, posmin': nat)
    requires Mins(Shapes(was)) <= total && Served(now, was, total, i, argc, posmin)
    requires i < Active(was) && argc > 0
    requires p == was[i].(argv := total - argc, argc := Takes(ShapeOf(was[i]), argc, posmin))
    requires argc' == argc - p.argc && posmin' == if Optional(was[i]) then posmin else posmin - 1
    ensures Served(now[i := p], was, total, i + 1, argc', posmin')
  {
    var counts := Greedy(Shapes(was), total);
    CountTurn(Shapes(was), counts, total, i, argc, posmin);
    StoreTurn(now, was, counts, total, i, p);
  }

  ghost predicate AllServed(now: seq<Param>, was: seq<Param>, total: nat) {
    Mins(Shapes(was)) <= total && Storing(now, was, Greedy(Shapes(was), total), total, Active(was))
  }

  lemma {:induction false} ServedToTheEnd(now: seq<Param>, was: seq<Param>, total: nat, i: nat, argc: nat, posmin: nat)
    requires Mins(Shapes(was)) <= total && Served(now, was, total, i, argc, posmin) && AtReset(was)
    requires AnyMany(Shapes(was)) || total <= |Shapes(was)|
    requires i == Active(was) || argc == 0
    ensures argc == 0 && AllServed(now, was, total)
  {
    var ps := Shapes(was);
    var counts := Greedy(ps, total);
    GreedyIsFair(ps, total);
    OffsetEnd(counts);
    if argc == 0 { NoneLeft(ps, counts, i, total); }
    NothingElse(now, was, counts, total, i);
  }

  // The parameters not served get nothing.
  lemma {:induction false} NothingElse(now: seq<Param>, was: seq<Param>, counts: seq<nat>, total: nat, i: nat)
    requires Storing(now, was, counts, total, i) && AtReset(was)
    requires forall k :: i <= k < |counts| ==> counts[k] == 0 && Offset(counts, k) == total
    ensures Storing(now, was, counts, total, |counts|)
  {
  }

  method ServeOne(params: array<Param>, ghost was: seq<Param>, total: nat, i: nat, argc: nat, posmin: nat)
    returns (argc': nat, posmin': nat)
    requires Mins(Shapes(was)) <= total && Served(params[..], was, total, i, argc, posmin) && Limits(was)
    requires i < Active(was) && argc > 0
    modifies params
    ensures Served(params[..], was, total, i + 1, argc', posmin')
  {
    ghost var before := params[..];
    EnoughForTurn(before, was, total, i, argc, posmin);
    posmin' := Give(params, i, total - argc, argc, posmin);
    argc' := argc - params[i].argc;
    ServedTurn(before, was, total, i, argc, posmin, params[i], argc', posmin');
  }

  // The distribution: `left` counts the arguments nobody took.
  method Distribute(params: array<Param>, total: nat, least: nat) returns (left: nat)
    requires Limits(params[..]) && AtReset(params[..]) && least == Mins(Shapes(params[..])) <= total
    requires AnyMany(Shapes(params[..])) || total <= |Shapes(params[..])|
    modifies params
    ensures left == 0 && AllServed(params[..], old(params[..]), total)
  {
    ghost var was := params[..];
    var argc: nat, posmin: nat := total, least;
    var i := 0;
    NobodyServed(was, total);
    while i < params.Length && argc > 0
      invariant Served(params[..], was, total, i, argc, posmin)
      invariant i == params.Length || i < Active(was)
    {
      ActiveEnds(was, i);
      argc, posmin := ServeOne(params, was, total, i, argc, posmin);
      if params[i].subcmd {
        ServedToTheEnd(params[..], was, total, i + 1, argc, posmin);
        return argc;
      }
      i := i + 1;
    }
    ServedToTheEnd(params[..], was, total, i, argc, posmin);
    left := argc;
  }

  lemma {:induction false} NobodyServed(was: seq<Param>, total: nat)
    requires Mins(Shapes(was)) <= total
    ensures Served(was, was, total, 0, total, Mins(Shapes(was)))
  {
    assert Shapes(was)[0..] == Shapes(was);
    assert Greedy(Shapes(was), total)[0..] == Greedy(Shapes(was), total);
  }

  // p is left with the k-th piece of the argument vector.
  ghost predicate Piece(p: Param, counts: seq<nat>, k: nat, args: seq<string>)
    requires k < |counts|
  {
    var start := Offset(counts, k);
    start + counts[k] <= |args| && SliceOf(p, args) == args[start..start + counts[k]]
  }

  lemma {:induction false} GivenHolds(p: Param, was: Param, counts: seq<nat>, k: nat, args: seq<string>)
    requires k < |counts| && Sum(counts) == |args| && Given(p, was, counts, k, |args|)
    ensures HoldsSlice(p, args) && Piece(p, counts, k, args)
  {
    OffsetEnd(counts);
    OffsetGrows(counts, k + 1, |counts|);
  }

  lemma {:induction false} NextSlice(front: seq<string>, piece: seq<string>, args: seq<string>, i: nat, j: nat)
    requires i <= j <= |args| && front == args[..i] && piece == args[i..j]
    ensures front + piece == args[..j]
  {
  }

  lemma {:induction false} SlicesServed(now: seq<Param>, counts: seq<nat>, args: seq<string>, j: nat)
    requires j <= |counts| <= |now|
    requires forall k :: 0 <= k < |counts| ==> Piece(now[k], counts, k, args)
    ensures Offset(counts, j) <= |args| && Slices(now[..j], args) == args[..Offset(counts, j)]
  {
    if j > 0 {
      SlicesServed(now, counts, args, j - 1);
      assert Piece(now[j - 1], counts, j - 1, args);
      SliceServed(now, counts, args, j);
    }
  }

  lemma {:induction false} SliceServed(now: seq<Param>, counts: seq<nat>, args: seq<string>, j: nat)
    requires 0 < j <= |counts| <= |now| && Piece(now[j - 1], counts, j - 1, args)
    requires Offset(counts, j - 1) <= |args| && Slices(now[..j - 1], args) == args[..Offset(counts, j - 1)]
    ensures Offset(counts, j) <= |args| && Slices(now[..j], args) == args[..Offset(counts, j)]
  {
    SlicesMore(now, args, j);
    NextSlice(Slices(now[..j - 1], args), SliceOf(now[j - 1], args), args, Offset(counts, j - 1), Offset(counts, j));
  }

  lemma {:induction false} SlicesMore(now: seq<Param>, args: seq<string>, j: nat)
    requires 0 < j <= |now|
    ensures Slices(now[..j], args) == Slices(now[..j - 1], args) + SliceOf(now[j - 1], args)
  {
    assert now[..j][..j - 1] == now[..j - 1];
  }

  lemma {:induction false} SlicesUnserved(now: seq<Param>, args: seq<string>, n: nat, j: nat)
    requires n <= j <= |now| && forall k :: n <= k < |now| ==> now[k].argc == 0
    ensures Slices(now[..j], args) == Slices(now[..n], args)
  {
    if n < j {
      SlicesUnserved(now, args, n, j - 1);
      SlicesMore(now, args, j);
    }
  }

  // Read in order, the slices make up the argument vector: no argument is lost,
  // repeated or moved.
  lemma {:induction false} SlicesMakeAll(now: seq<Param>, was: seq<Param>, args: seq<string>)
    requires AtReset(was) && AllServed(now, was, |args|)
    requires Fair(Shapes(was), Greedy(Shapes(was), |args|), |args|)
    ensures forall k :: 0 <= k < |now| ==> HoldsSlice(now[k], args)
    ensures Slices(now, args) == args
  {
    var counts := Greedy(Shapes(was), |args|);
    forall k | 0 <= k < |now| ensures HoldsSlice(now[k], args) {
      if k < |counts| { GivenHolds(now[k], was[k], counts, k, args); } else { assert now[k] == was[k]; }
    }
    forall k | 0 <= k < |counts| ensures Piece(now[k], counts, k, args) {
      GivenHolds(now[k], was[k], counts, k, args);
    }
    SlicesServed(now, counts, args, |counts|);
    OffsetEnd(counts);
    SlicesUnserved(now, args, |counts|, |now|);
    assert now[..|now|] == now;
  }

  datatype Status = Accepted | TooFew(missing: nat) | TooMany(extra: nat)

  // The parser's treatment of what follows the options.
  method Positionals(params: array<Param>, args: seq<string>) returns (status: Status)
    requires AtReset(params[..])
    modifies params
    ensures var ps := Shapes(old(params[..]));
            status == if |args| < Mins(ps) then TooFew(Mins(ps) - |args|)
                      else if |args| > Maxs(ps) then TooMany(|args| - Maxs(ps)) else Accepted
    ensures Shapes(params[..]) == Shapes(old(params[..]))
    ensures status.Accepted? ==>
              && (forall k :: 0 <= k < params.Length ==> HoldsSlice(params[k], args))
              && Slices(params[..], args) == args
              && forall k :: 0 <= k < Active(old(params[..])) ==>
                               params[k].argc == Greedy(Shapes(old(params[..])), |args|)[k]
  {
    ghost var was := params[..];
    var posmin, posmax := MinMax(params);
    ghost var now := params[..];
    SameShapes(was, now);
    if |args| < posmin { return TooFew(posmin - |args|); }
    if |args| > posmax { return TooMany(|args| - posmax); }
    Share(params, args, posmin);
    status := Accepted;
  }

  method Share(params: array<Param>, args: seq<string>, posmin: nat)
    requires AtReset(params[..]) && Limits(params[..])
    requires posmin == Mins(Shapes(params[..])) <= |args| <= Maxs(Shapes(params[..]))
    modifies params
    ensures Shapes(params[..]) == Shapes(old(params[..]))
    ensures forall k :: 0 <= k < params.Length ==> HoldsSlice(params[k], args)
    ensures Slices(params[..], args) == args
    ensures forall k :: 0 <= k < Active(old(params[..])) ==>
                          params[k].argc == Greedy(Shapes(old(params[..])), |args|)[k]
  {
    ghost var was := params[..];
    Distributable(Shapes(was), |args|);
    var left := Distribute(params, |args|, posmin);
    SharedOut(params[..], was, args);
  }

  lemma {:induction false} SharedOut(now: seq<Param>, was: seq<Param>, args: seq<string>)
    requires AtReset(was) && AllServed(now, was, |args|)
    requires Fair(Shapes(was), Greedy(Shapes(was), |args|), |args|)
    ensures Shapes(now) == Shapes(was) && Slices(now, args) == args
    ensures forall k :: 0 <= k < |now| ==> HoldsSlice(now[k], args)
    ensures forall k :: 0 <= k < Active(was) ==> now[k].argc == Greedy(Shapes(was), |args|)[k]
  {
    ServedShapes(now, was, Greedy(Shapes(was), |args|), |args|);
    SlicesMakeAll(now, was, args);
  }

  lemma {:induction false} ServedShapes(now: seq<Param>, was: seq<Param>, counts: seq<nat>, total: nat)
    requires Storing(now, was, counts, total, |counts|)
    ensures Shapes(now) == Shapes(was)
  {
    SameShapes(was, now);
  }

  lemma {:induction false} Distributable(ps: seq<Shape>, argc: nat)
    requires Mins(ps) <= argc <= Maxs(ps)
    ensures (AnyMany(ps) || argc <= |ps|) && Fair(ps, Greedy(ps, argc), argc)
  {
    AcceptedIsGivenAway(ps, argc);
    FairNeedsMins(ps, Greedy(ps, argc), argc);
  }

  // Neither loop touches what the shapes are read from.
  lemma {:induction false} SameShapes(was: seq<Param>, now: seq<Param>)
    requires |was| == |now|
    requires forall i :: 0 <= i < |was| ==> was[i].name == now[i].name && was[i].subcmd == now[i].subcmd
    ensures Active(was) == Active(now) && Shapes(was) == Shapes(now)
  {
    SameActive(was, now);
  }

  lemma {:induction false} SameActive(was: seq<Param>, now: seq<Param>)
    requires |was| == |now| && forall i :: 0 <= i < |was| ==> was[i].subcmd == now[i].subcmd
    ensures Active(was) == Active(now)
  {
    if was != [] { SameActive(was[1..], now[1..]); }
  }

  lemma {:induction false} GreedyHead(ps: seq<Shape>, counts: seq<nat>, i: nat, argc: nat)
    requires i < |ps| == |counts| && Mins(ps[i..]) <= argc && counts[i..] == Greedy(ps[i..], argc)
    ensures counts[i] == Takes(ps[i], argc, Mins(ps[i..]))
    ensures Mins(ps[i..]) == (if ps[i].must then 1 else 0) + Mins(ps[i + 1..])
    ensures counts[i] <= argc && counts[i + 1..] == Greedy(ps[i + 1..], argc - counts[i])
  {
    assert ps[i..][0] == ps[i] && ps[i..][1..] == ps[i + 1..];
    assert counts[i..][0] == counts[i] && counts[i..][1..] == counts[i + 1..];
  }

  // Once all arguments are gone the rest of the parameters get none.
  lemma {:induction false} NoneLeft(ps: seq<Shape>, counts: seq<nat>, i: nat, total: nat)
    requires i <= |ps| == |counts| && Offset(counts, i) == total && Mins(ps[i..]) == 0
    requires counts[i..] == Greedy(ps[i..], 0)
    ensures forall k :: i <= k < |ps| ==> counts[k] == 0 && Offset(counts, k) == total
    decreases |ps| - i
  {
    if i < |ps| {
      GreedyHead(ps, counts, i, 0);
      NoneLeft(ps, counts, i + 1, total);
    }
  }
}

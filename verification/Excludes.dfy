/** Mutually exclusive options: the relation, and the check made while parsing. */
module Excludes {

  datatype Maybe<T> = None | Some(value: T)

  // `paramv` tells parameter vectors apart; `after` says whether there is a procedure to
  // run once all options are parsed; `given` counts the appearances so far.
  datatype Opt = Opt(letter: char, excludes: Maybe<string>, paramv: Maybe<nat>, after: bool, given: nat)

  // ---- The relation ----

  // Whether an excludes string rules a letter out: a list of letters, all but a list
  // (^), or all (*).
  predicate Bars(excludes: string, letter: char) {
    if excludes != [] && excludes[0] == '^' then letter !in excludes
    else (excludes != [] && excludes[0] == '*') || letter in excludes
  }

  predicate Names(l: Opt, r: Opt) { l.excludes.Some? && Bars(l.excludes.value, r.letter) }

  predicate Parted(l: Opt, r: Opt) { l.paramv.Some? && r.paramv.Some? && l.paramv != r.paramv }

  // Options are told apart by where they are in the vector.
  predicate Excludes2(v: seq<Opt>, i: int, j: int) {
    && 0 <= i < |v| && 0 <= j < |v| && i != j
    && (Names(v[i], v[j]) || Names(v[j], v[i]) || Parted(v[i], v[j]))
  }

  lemma {:induction false} Excludes2Symmetric(v: seq<Opt>, i: int, j: int)
    ensures Excludes2(v, i, j) == Excludes2(v, j, i)
  {
  }

  // What an option's excludes string says of another option that says nothing itself: "*"
  // excludes it, "^abc" excludes it unless it is listed, and "abc" if it is.
  lemma {:induction false} SaysWhom(v: seq<Opt>, i: nat, j: nat, list: string)
    requires i < |v| && j < |v| && i != j && v[j].excludes.None? && v[j].paramv.None?
    requires v[j].letter != '^' && v[j].letter != '*'
    ensures v[i].excludes == Some("*" + list) ==> Excludes2(v, i, j)
    ensures v[i].excludes == Some("^" + list) ==> (Excludes2(v, i, j) <==> v[j].letter !in list)
    ensures v[i].excludes == Some(list) && (list == "" || (list[0] != '^' && list[0] != '*')) ==>
              (Excludes2(v, i, j) <==> v[j].letter in list)
    ensures v[i].excludes.None? ==> !Excludes2(v, i, j)
  {
    var c := v[j].letter;
    assert ("*" + list)[0] == '*' && ("^" + list)[0] == '^';
    assert c in "^" + list <==> c in list;
  }

  // Options with "*", as those for help and for the version, exclude every other option.
  lemma {:induction false} StarExcludesAll(v: seq<Opt>, i: nat, j: nat)
    requires i < |v| && j < |v| && i != j && v[i].excludes == Some("*")
    ensures Excludes2(v, i, j)
  {
    assert "*"[0] == '*';
  }

  // The order in which the conditions are asked makes no difference.
  method DoExclude(v: array<Opt>, i: int, j: int) returns (r: bool)
    requires -1 <= i < v.Length && -1 <= j < v.Length
    ensures r == Excludes2(v[..], i, j)
  {
    if i >= 0 && j >= 0 && i != j {
      if v[i].excludes.Some? {
        var e := v[i].excludes.value;
        if e != [] && e[0] == '^' {
          if v[j].letter !in e { return true; }
        } else {
          if (e != [] && e[0] == '*') || v[j].letter in e { return true; }
        }
      }
      if v[j].excludes.Some? {
        var e := v[j].excludes.value;
        if e != [] && e[0] == '^' {
          if v[i].letter !in e { return true; }
        } else {
          if (e != [] && e[0] == '*') || v[i].letter in e { return true; }
        }
      }
      if v[i].paramv.Some? && v[j].paramv.Some? && v[i].paramv != v[j].paramv { return true; }
    }
    return false;
  }

  // The first option with this letter, or -1.
  function Find(v: seq<Opt>, c: char): (i: int)
    ensures -1 <= i < |v|
    ensures i >= 0 ==> v[i].letter == c && forall k :: 0 <= k < i ==> v[k].letter != c
    ensures i < 0 ==> forall k :: 0 <= k < |v| ==> v[k].letter != c
  {
    if v == [] then -1
    else if v[0].letter == c then 0
    else var i := Find(v[1..], c); if i < 0 then -1 else i + 1
  }

  lemma {:induction false} FindIs(v: seq<Opt>, c: char, i: int)
    requires 0 <= i < |v| && v[i].letter == c && forall k :: 0 <= k < i ==> v[k].letter != c
    ensures Find(v, c) == i
  {
  }

  method FindOption(v: array<Opt>, c: char) returns (i: int)
    ensures i == Find(v[..], c)
  {
    i := 0;
    while i < v.Length
      invariant 0 <= i <= v.Length && forall k :: 0 <= k < i ==> v[k].letter != c
    {
      if v[i].letter == c { return; }
      i := i + 1;
    }
    i := -1;
  }

  // The first option given at least `times` times that excludes this one, or -1.
  method FindExcluder(v: array<Opt>, option: int, times: nat) returns (x: int)
    requires 0 <= option < v.Length
    ensures -1 <= x < v.Length
    ensures x >= 0 ==> v[x].given >= times && Excludes2(v[..], option, x)
    ensures forall k :: 0 <= k < (if x < 0 then v.Length else x) && v[k].given >= times ==>
                          !Excludes2(v[..], option, k)
  {
    x := 0;
    while x < v.Length
      invariant 0 <= x <= v.Length
      invariant forall k :: 0 <= k < x && v[k].given >= times ==> !Excludes2(v[..], option, k)
    {
      if v[x].given >= times {
        var excluded := DoExclude(v, option, x);
        if excluded { return; }
      }
      x := x + 1;
    }
    x := -1;
  }

  // ---- What the loop over the options does ----

  // Everything the declaration of an option fixes.
  function Decl(o: Opt): Opt { o.(given := 0) }

  ghost predicate SameDecls(v: seq<Opt>, w: seq<Opt>) {
    |v| == |w| && forall i :: 0 <= i < |v| ==> Decl(v[i]) == Decl(w[i])
  }

  lemma {:induction false} SameDeclsAgree(v: seq<Opt>, w: seq<Opt>, c: char)
    requires SameDecls(v, w)
    ensures Find(v, c) == Find(w, c)
    ensures forall i, j :: Excludes2(v, i, j) == Excludes2(w, i, j)
  {
    SameLetters(v, w);
    if Find(v, c) >= 0 { FindIs(w, c, Find(v, c)); }
    forall i, j ensures Excludes2(v, i, j) == Excludes2(w, i, j) {
      if 0 <= i < |v| && 0 <= j < |v| {
        assert Decl(v[i]) == Decl(w[i]) && Decl(v[j]) == Decl(w[j]);
      }
    }
  }

  lemma {:induction false} SameLetters(v: seq<Opt>, w: seq<Opt>)
    requires SameDecls(v, w)
    ensures forall i :: 0 <= i < |v| ==> v[i].letter == w[i].letter
  {
    forall i | 0 <= i < |v| ensures v[i].letter == w[i].letter { assert Decl(v[i]) == Decl(w[i]); }
  }

  // The options a list of letters stands for.
  function Named(v: seq<Opt>, letters: string): (opts: seq<int>)
    ensures |opts| == |letters| && forall k :: 0 <= k < |opts| ==> opts[k] == Find(v, letters[k])
  {
    seq(|letters|, k requires 0 <= k < |letters| => Find(v, letters[k]))
  }

  ghost predicate Declared(v: seq<Opt>, letters: string) {
    forall k :: 0 <= k < |letters| ==> Find(v, letters[k]) >= 0
  }

  // No two of the options exclude each other.
  ghost predicate Compatible(v: seq<Opt>, opts: seq<int>) {
    forall a, b :: 0 <= a < |opts| && 0 <= b < |opts| ==> !Excludes2(v, opts[a], opts[b])
  }

  function Count(opts: seq<int>, i: int): nat {
    if opts == [] then 0
    else Count(opts[..|opts| - 1], i) + if opts[|opts| - 1] == i then 1 else 0
  }

  // The options with an after procedure, in order of first appearance.
  function Afters(v: seq<Opt>, opts: seq<int>): seq<int> {
    if opts == [] then []
    else
      var last, before := opts[|opts| - 1], opts[..|opts| - 1];
      Afters(v, before) + if 0 <= last < |v| && v[last].after && last !in before then [last] else []
  }

  // The parameter vector in force: the last one named by an option, or the default.
  function ParamOf(v: seq<Opt>, default: Maybe<nat>, opts: seq<int>): Maybe<nat> {
    if opts == [] then default
    else
      var last := opts[|opts| - 1];
      if 0 <= last < |v| && v[last].paramv.Some? then v[last].paramv
      else ParamOf(v, default, opts[..|opts| - 1])
  }

  datatype Status = Parsed | Unexpected(c: char) | Excluded(other: int, c: char)

  // The parser's state after the options `opts`.
  ghost predicate After(now: seq<Opt>, v: seq<Opt>, opts: seq<int>) {
    && SameDecls(now, v)
    && forall i :: 0 <= i < |now| ==> now[i].given == Count(opts, i)
  }

  class Parser {
    const options: array<Opt>
    const default: Maybe<nat>
    var afters: seq<int>
    var paramv: Maybe<nat>

    constructor (options: array<Opt>, default: Maybe<nat>)
      ensures this.options == options && this.default == default
      ensures afters == [] && paramv == default
    {
      this.options, this.default := options, default;
      afters, paramv := [], default;
    }

    ghost predicate Reached(v: seq<Opt>, opts: seq<int>)
      reads this, options
    {
      && After(options[..], v, opts) && Compatible(v, opts)
      && (forall k :: 0 <= k < |opts| ==> 0 <= opts[k] < |v|)
      && afters == Afters(v, opts) && paramv == ParamOf(v, default, opts)
    }

    // One option from the command line; conversion and action succeed.
    method Take(c: char, ghost v: seq<Opt>, ghost opts: seq<int>) returns (status: Status)
      requires Reached(v, opts)
      modifies this, options
      ensures status.Parsed? ==> Find(v, c) >= 0 && Reached(v, opts + [Find(v, c)])
      ensures status.Unexpected? ==> Find(v, c) < 0 && status.c == c
      ensures status.Excluded? ==>
                && status.c == c && Find(v, c) >= 0
                && status.other in opts && Excludes2(v, Find(v, c), status.other)
      ensures !status.Parsed? ==> Reached(v, opts)
    {
      SameDeclsAgree(options[..], v, c);
      var o := FindOption(options, c);
      if o < 0 { return Unexpected(c); }
      var x := FindExcluder(options, o, 1);
      if x >= 0 {
        CountIn(opts, x);
        return Excluded(x, c);
      }
      Extend(options[..], v, opts, o);
      if options[o].after && options[o].given == 0 { afters := afters + [o]; }
      options[o] := options[o].(given := options[o].given + 1);
      if options[o].paramv.Some? { paramv := options[o].paramv; }
      status := Parsed;
    }

    // One turn of the loop below.
    method TakeNext(letters: string, done: nat, ghost v: seq<Opt>) returns (status: Status)
      requires done < |letters| && Declared(v, letters[..done]) && Reached(v, Named(v, letters[..done]))
      modifies this, options
      ensures status.Parsed? ==> Declared(v, letters[..done + 1]) && Reached(v, Named(v, letters[..done + 1]))
      ensures !status.Parsed? ==> Reached(v, Named(v, letters[..done])) && Stops(v, letters, done)
      ensures status.Unexpected? ==> Find(v, letters[done]) < 0
    {
      NamedMore(v, letters, done);
      status := Take(letters[done], v, Named(v, letters[..done]));
      if status.Excluded? { StopsHere(v, letters, done, status.other); }
    }

    // The loop over the options of a command line. `done` counts those taken.
    method Parse(letters: string, ghost v: seq<Opt>) returns (status: Status, done: nat)
      requires Reached(v, [])
      modifies this, options
      ensures status.Parsed? <==> Declared(v, letters) && Compatible(v, Named(v, letters))
      ensures done <= |letters| && (status.Parsed? <==> done == |letters|)
      ensures Declared(v, letters[..done]) && Reached(v, Named(v, letters[..done]))
      ensures done < |letters| ==> Stops(v, letters, done)
      ensures status.Unexpected? ==> Find(v, letters[done]) < 0
    {
      AcceptedIff(v, letters);
      done := 0;
      status := Parsed;
      assert Named(v, letters[..0]) == [];
      while done < |letters|
        invariant done <= |letters| && status.Parsed?
        invariant Declared(v, letters[..done]) && Reached(v, Named(v, letters[..done]))
      {
        status := TakeNext(letters, done, v);
        if !status.Parsed? { return; }
        done := done + 1;
      }
      assert letters[..done] == letters;
    }
  }

  lemma {:induction false} NamedMore(v: seq<Opt>, letters: string, k: nat)
    requires k < |letters|
    ensures Named(v, letters[..k + 1]) == Named(v, letters[..k]) + [Find(v, letters[k])]
    ensures Declared(v, letters[..k + 1]) <==> Declared(v, letters[..k]) && Find(v, letters[k]) >= 0
  {
    assert letters[..k + 1] == letters[..k] + [letters[k]];
  }

  // The next option is unknown or excluded by one taken already.
  ghost predicate Stops(v: seq<Opt>, letters: string, k: nat)
    requires k < |letters|
  {
    Find(v, letters[k]) < 0 ||
    exists j :: 0 <= j < k && Excludes2(v, Find(v, letters[k]), Find(v, letters[j]))
  }

  lemma {:induction false} StopsHere(v: seq<Opt>, letters: string, k: nat, x: int)
    requires k < |letters| && x in Named(v, letters[..k]) && Excludes2(v, Find(v, letters[k]), x)
    ensures Stops(v, letters, k)
  {
    var opts := Named(v, letters[..k]);
    var j :| 0 <= j < |opts| && opts[j] == x;
    assert letters[..k][j] == letters[j];
  }

  // ---- What the loop decides ----

  // A command line is accepted if and only if its options are all known and no two of
  // them exclude each other: what stops the loop is never the order they came in.
  lemma {:induction false} AcceptedIff(v: seq<Opt>, letters: string)
    ensures (Declared(v, letters) && Compatible(v, Named(v, letters)))
       <==> forall k: nat :: k < |letters| ==> !Stops(v, letters, k)
  {
    var opts := Named(v, letters);
    if Declared(v, letters) && Compatible(v, opts) {
      forall k: nat | k < |letters| ensures !Stops(v, letters, k) {
        forall j | 0 <= j < k ensures !Excludes2(v, Find(v, letters[k]), Find(v, letters[j])) {
          assert !Excludes2(v, opts[k], opts[j]);
        }
      }
    }
    if forall k: nat :: k < |letters| ==> !Stops(v, letters, k) {
      forall k | 0 <= k < |letters| ensures Find(v, letters[k]) >= 0 { assert !Stops(v, letters, k); }
      forall a, b | 0 <= a < |opts| && 0 <= b < |opts| ensures !Excludes2(v, opts[a], opts[b]) {
        assert !Stops(v, letters, a) && !Stops(v, letters, b);
      }
    }
  }

  // A command line with an option that has "*" is accepted only if it gives no other.
  lemma {:induction false} StarStandsAlone(v: seq<Opt>, letters: string, k: nat)
    requires (forall k: nat :: k < |letters| ==> !Stops(v, letters, k)) && k < |letters|
    requires Find(v, letters[k]) >= 0 && v[Find(v, letters[k])].excludes == Some("*")
    ensures forall j :: 0 <= j < |letters| ==> Find(v, letters[j]) == Find(v, letters[k])
  {
    var opts := Named(v, letters);
    AcceptedIff(v, letters);
    forall j | 0 <= j < |letters| ensures opts[j] == opts[k] {
      assert Find(v, letters[j]) >= 0 && !Excludes2(v, opts[k], opts[j]);
      if opts[j] != opts[k] { StarExcludesAll(v, opts[k], opts[j]); }
    }
  }

  ghost predicate SameOptions(opts: seq<int>, opts': seq<int>) { forall i :: i in opts <==> i in opts' }

  // Reordered or repeated, the options are as compatible as before and choose the same
  // parameter vector.
  lemma {:induction false} OrderIrrelevant(v: seq<Opt>, default: Maybe<nat>, opts: seq<int>, opts': seq<int>)
    requires SameOptions(opts, opts')
    ensures Compatible(v, opts) <==> Compatible(v, opts')
    ensures Compatible(v, opts) ==> ParamOf(v, default, opts) == ParamOf(v, default, opts')
  {
    if Compatible(v, opts) { CompatibleToo(v, opts, opts'); }
    if Compatible(v, opts') { CompatibleToo(v, opts', opts); }
    forall i ensures Brings(v, opts, i) == Brings(v, opts', i) { assert i in opts <==> i in opts'; }
    ParamIsNamed(v, default, opts);
    ParamIsNamed(v, default, opts');
    if Compatible(v, opts) {
      forall i, j | Brings(v, opts, i) && Brings(v, opts, j) ensures v[i].paramv == v[j].paramv {
        GivenOnesAgree(v, opts, i, j);
      }
    }
  }

  // All given options with a parameter vector have the same one.
  lemma {:induction false} GivenOnesAgree(v: seq<Opt>, opts: seq<int>, i: int, j: int)
    requires Compatible(v, opts) && Brings(v, opts, i) && Brings(v, opts, j)
    ensures v[i].paramv == v[j].paramv
  {
    var a :| 0 <= a < |opts| && opts[a] == i;
    var b :| 0 <= b < |opts| && opts[b] == j;
    assert !Excludes2(v, opts[a], opts[b]);
  }

  lemma {:induction false} CompatibleToo(v: seq<Opt>, opts: seq<int>, opts': seq<int>)
    requires SameOptions(opts, opts') && Compatible(v, opts)
    ensures Compatible(v, opts')
  {
    forall a, b | 0 <= a < |opts'| && 0 <= b < |opts'| ensures !Excludes2(v, opts'[a], opts'[b]) {
      assert opts'[a] in opts' && opts'[b] in opts';
      var c :| 0 <= c < |opts| && opts[c] == opts'[a];
      var d :| 0 <= d < |opts| && opts[d] == opts'[b];
      assert !Excludes2(v, opts[c], opts[d]);
    }
  }

  // Option i is given and has a parameter vector.
  ghost predicate Brings(v: seq<Opt>, opts: seq<int>, i: int) {
    i in opts && 0 <= i < |v| && v[i].paramv.Some?
  }

  // The vector in force is one that a given option named, or none of them named any.
  lemma {:induction false} ParamIsNamed(v: seq<Opt>, default: Maybe<nat>, opts: seq<int>)
    ensures (exists i :: Brings(v, opts, i) && ParamOf(v, default, opts) == v[i].paramv)
         || (ParamOf(v, default, opts) == default && forall i :: !Brings(v, opts, i))
  {
    if opts != [] {
      var last, before := opts[|opts| - 1], opts[..|opts| - 1];
      assert opts == before + [last];
      ParamIsNamed(v, default, before);
      if 0 <= last < |v| && v[last].paramv.Some? {
        assert Brings(v, opts, last);
      } else if exists i :: Brings(v, before, i) && ParamOf(v, default, before) == v[i].paramv {
        var i :| Brings(v, before, i) && ParamOf(v, default, before) == v[i].paramv;
        assert Brings(v, opts, i);
      } else {
        forall i ensures !Brings(v, opts, i) { assert !Brings(v, before, i); }
      }
    }
  }

  // Where an option first appears.
  function FirstAt(opts: seq<int>, i: int): (k: nat)
    requires i in opts
    ensures k < |opts| && opts[k] == i && i !in opts[..k]
  {
    if opts[0] == i then 0
    else
      assert opts == [opts[0]] + opts[1..];
      var k := 1 + FirstAt(opts[1..], i);
      assert opts[..k] == [opts[0]] + opts[1..][..k - 1];
      k
  }

  lemma {:induction false} AftersAre(v: seq<Opt>, opts: seq<int>)
    ensures forall i :: i in Afters(v, opts) <==> i in opts && 0 <= i < |v| && v[i].after
  {
    if opts != [] {
      assert opts == opts[..|opts| - 1] + [opts[|opts| - 1]];
      AftersAre(v, opts[..|opts| - 1]);
    }
  }

  ghost predicate InOrder(opts: seq<int>, list: seq<int>)
    requires forall a :: 0 <= a < |list| ==> list[a] in opts
  {
    forall a, b :: 0 <= a < b < |list| ==> FirstAt(opts, list[a]) < FirstAt(opts, list[b])
  }

  lemma {:induction false} FirstAtKept(before: seq<int>, last: int, i: int)
    requires i in before
    ensures i in before + [last] && FirstAt(before + [last], i) == FirstAt(before, i)
  {
    var k, opts := FirstAt(before, i), before + [last];
    assert opts[..k] == before[..k];
    FirstAtUnique(opts, i, k);
  }

  // The list of after procedures: each option given that has one is on it once, and
  // they stand in the order in which they first appeared.
  lemma {:induction false} AftersOnceInOrder(v: seq<Opt>, opts: seq<int>)
    ensures forall i :: i in Afters(v, opts) <==> i in opts && 0 <= i < |v| && v[i].after
    ensures forall a :: 0 <= a < |Afters(v, opts)| ==> Afters(v, opts)[a] in opts
    ensures InOrder(opts, Afters(v, opts))
  {
    AftersAre(v, opts);
    if opts != [] {
      var last, before := opts[|opts| - 1], opts[..|opts| - 1];
      assert opts == before + [last];
      AftersOnceInOrder(v, before);
      OrderKept(before, last, Afters(v, before));
      if last !in before { LastInOrder(before, last, Afters(v, before)); }
    }
  }

  lemma {:induction false} OrderKept(before: seq<int>, last: int, list: seq<int>)
    requires (forall a :: 0 <= a < |list| ==> list[a] in before) && InOrder(before, list)
    ensures (forall a :: 0 <= a < |list| ==> list[a] in before + [last]) && InOrder(before + [last], list)
  {
    forall a | 0 <= a < |list|
      ensures list[a] in before + [last] && FirstAt(before + [last], list[a]) == FirstAt(before, list[a])
    {
      FirstAtKept(before, last, list[a]);
    }
  }

  lemma {:induction false} LastInOrder(before: seq<int>, last: int, list: seq<int>)
    requires last !in before && (forall a :: 0 <= a < |list| ==> list[a] in before)
    requires InOrder(before, list)
    ensures forall a :: 0 <= a < |list| + 1 ==> (list + [last])[a] in before + [last]
    ensures InOrder(before + [last], list + [last])
  {
    OrderKept(before, last, list);
    FirstAtUnique(before + [last], last, |before|);
    forall a | 0 <= a < |list| ensures FirstAt(before + [last], list[a]) < |before| {
      FirstAtKept(before, last, list[a]);
    }
  }

  lemma {:induction false} FirstAtUnique(opts: seq<int>, i: int, k: nat)
    requires k < |opts| && opts[k] == i && i !in opts[..k]
    ensures i in opts && FirstAt(opts, i) == k
  {
    var j := FirstAt(opts, i);
    forall m | 0 <= m < k ensures opts[m] != i { assert opts[..k][m] == opts[m]; }
    forall m | 0 <= m < j ensures opts[m] != i { assert opts[..j][m] == opts[m]; }
  }

  lemma {:induction false} CountIn(opts: seq<int>, i: int)
    ensures Count(opts, i) > 0 <==> i in opts
  {
    if opts != [] {
      CountIn(opts[..|opts| - 1], i);
      assert opts == opts[..|opts| - 1] + [opts[|opts| - 1]];
    }
  }

  lemma {:induction false} Extend(now: seq<Opt>, v: seq<Opt>, opts: seq<int>, o: int)
    requires After(now, v, opts) && Compatible(v, opts) && 0 <= o < |v|
    requires forall k :: 0 <= k < |opts| ==> 0 <= opts[k] < |v|
    requires forall k :: 0 <= k < |now| && now[k].given >= 1 ==> !Excludes2(v, o, k)
    ensures Compatible(v, opts + [o])
    ensures After(now[o := now[o].(given := now[o].given + 1)], v, opts + [o])
    ensures now[o].after == v[o].after && now[o].paramv == v[o].paramv
    ensures Afters(v, opts + [o]) == Afters(v, opts) + if now[o].after && now[o].given == 0 then [o] else []
    ensures (opts + [o])[..|opts|] == opts
  {
    assert (opts + [o])[..|opts|] == opts;
    assert Decl(now[o]) == Decl(v[o]);
    CountIn(opts, o);
    StaysCompatible(now, v, opts, o);
    CountMore(now, v, opts, o);
  }

  lemma {:induction false} StaysCompatible(now: seq<Opt>, v: seq<Opt>, opts: seq<int>, o: int)
    requires After(now, v, opts) && Compatible(v, opts) && 0 <= o < |v|
    requires forall k :: 0 <= k < |opts| ==> 0 <= opts[k] < |v|
    requires forall k :: 0 <= k < |now| && now[k].given >= 1 ==> !Excludes2(v, o, k)
    ensures Compatible(v, opts + [o])
  {
    forall k | 0 <= k < |opts| ensures !Excludes2(v, o, opts[k]) && !Excludes2(v, opts[k], o) {
      CountIn(opts, opts[k]);
      assert now[opts[k]].given >= 1;
    }
  }

  lemma {:induction false} CountMore(now: seq<Opt>, v: seq<Opt>, opts: seq<int>, o: int)
    requires After(now, v, opts) && 0 <= o < |v|
    ensures After(now[o := now[o].(given := now[o].given + 1)], v, opts + [o])
  {
    assert (opts + [o])[..|opts|] == opts;
  }
}

/** Finding out which names an implementation declares, with its compiler as the oracle (dev/probe_impl.py:122-156,
  * 208-259): probe lines that fail to compile are dropped until the rest compiles. */
module ImplProbe {
  import opened Common

  type Name = nat

  /** A line of the probe file: a fixed one, or one of the five a name contributes. */
  datatype Src = Fixed | Ifdef(n: Name) | CountIt | ElseLine | SizeOf(n: Name) | EndifLine

  function Block(n: Name): seq<Src> {
    [Ifdef(n), CountIt, ElseLine, SizeOf(n), EndifLine]
  }

  function Blocks(names: seq<Name>): (r: seq<Src>)
    ensures |r| == 5 * |names|
  {
    if names == [] then [] else Blocks(names[..|names| - 1]) + Block(names[|names| - 1])
  }

  /** The lines before the probes: two, one per optional header, and four more. */
  function Preface(headers: nat): (r: seq<Src>)
    ensures |r| == headers + 6 && forall i :: 0 <= i < |r| ==> r[i] == Fixed
  {
    seq(headers + 6, _ => Fixed)
  }

  function Source(names: seq<Name>, headers: nat): seq<Src> {
    Preface(headers) + Blocks(names) + [Fixed, Fixed]
  }

  /** The line number of name k's probe, counted from 1 as diagnostics count. */
  function ProbeLine(headers: nat, k: nat): nat {
    headers + 6 + 5 * k + 4
  }

  lemma {:induction false} BlocksAt(names: seq<Name>, k: nat, j: nat)
    requires k < |names| && j < 5
    ensures Blocks(names)[5 * k + j] == Block(names[k])[j]
    decreases |names|
  {
    var rest := names[..|names| - 1];
    if k < |names| - 1 {
      BlocksAt(rest, k, j);
    }
  }

  /** The map from line numbers to names sends each probe line to its own name, and no other line anywhere. */
  predicate Maps(where: map<nat, Name>, src: seq<Src>) {
    && (forall l :: l in where ==> 0 < l <= |src| && src[l - 1] == SizeOf(where[l]))
    && (forall l :: 0 < l <= |src| && src[l - 1].SizeOf? ==> l in where)
  }

  /** probe_source */
  method ProbeSource(names: seq<Name>, headers: nat) returns (lines: seq<Src>, where: map<nat, Name>)
    ensures lines == Source(names, headers) && Maps(where, lines)
    ensures forall k :: 0 <= k < |names| ==> ProbeLine(headers, k) in where && where[ProbeLine(headers, k)] == names[k]
  {
    lines := Preface(headers);
    where := map[];
    for i := 0 to |names|
      invariant lines == Preface(headers) + Blocks(names[..i]) && Maps(where, lines)
      invariant forall k :: 0 <= k < i ==> ProbeLine(headers, k) in where && where[ProbeLine(headers, k)] == names[k]
    {
      assert names[..i + 1][..i] == names[..i];
      ghost var before, old_ := lines, where;
      lines := lines + [Ifdef(names[i]), CountIt, ElseLine];
      where := where[|lines| + 1 := names[i]];
      lines := lines + [SizeOf(names[i]), EndifLine];
      assert lines == before + Block(names[i]);
      MapsMore(before, old_, names[i]);
    }
    assert names[..|names|] == names;
    ghost var body := lines;
    lines := lines + [Fixed, Fixed];
    assert forall i :: 0 <= i < |body| ==> lines[i] == body[i];
  }

  lemma MapsMore(src: seq<Src>, where: map<nat, Name>, n: Name)
    requires Maps(where, src)
    ensures Maps(where[|src| + 4 := n], src + Block(n))
  {
    var src', where' := src + Block(n), where[|src| + 4 := n];
    forall l | 0 < l <= |src'| && src'[l - 1].SizeOf? ensures l in where' {
      if l <= |src| {
        assert src'[l - 1] == src[l - 1];
      } else {
        assert src'[l - 1] == Block(n)[l - 1 - |src|];
      }
    }
  }

  // ---------------------------------------------------------------- the compiler

  datatype Verdict = Verdict(ok: bool, lines: set<nat>)

  type Compiler = seq<Src> -> Verdict

  /** What the loop relies on.  A probe file compiles if and only if every name in it is declared, and a failing one
    * is diagnosed at some probe line whose name is not -- and at no probe line whose name is. */
  ghost predicate Honest(compile: Compiler, declared: set<Name>, headers: nat) {
    forall names: seq<Name> {:trigger Source(names, headers)} :: HonestOn(compile, declared, Source(names, headers))
  }

  predicate HonestOn(compile: Compiler, declared: set<Name>, src: seq<Src>) {
    var v := compile(src);
    && (v.ok <==> forall i :: 0 <= i < |src| && src[i].SizeOf? ==> src[i].n in declared)
    && (!v.ok ==> exists l :: l in v.lines && 0 < l <= |src| && src[l - 1].SizeOf?)
    && (forall l :: l in v.lines && 0 < l <= |src| && src[l - 1].SizeOf? ==> src[l - 1].n !in declared)
  }

  function Without(names: seq<Name>, bad: set<Name>): (r: seq<Name>)
    ensures forall n :: n in r <==> n in names && n !in bad
    ensures |r| <= |names|
  {
    if names == [] then []
    else
      assert names == [names[0]] + names[1..];
      (if names[0] in bad then [] else [names[0]]) + Without(names[1..], bad)
  }

  /** How many probes name something undeclared. */
  function Undeclared(names: seq<Name>, declared: set<Name>): nat {
    if names == [] then 0 else (if names[0] in declared then 0 else 1) + Undeclared(names[1..], declared)
  }

  lemma {:induction false} Dropping(names: seq<Name>, bad: set<Name>, declared: set<Name>, n: Name)
    requires bad !! declared
    ensures Undeclared(Without(names, bad), declared) <= Undeclared(names, declared)
    ensures n in names && n in bad ==> Undeclared(Without(names, bad), declared) < Undeclared(names, declared)
  {
    if names != [] {
      assert names == [names[0]] + names[1..];
      Dropping(names[1..], bad, declared, n);
      var w := Without(names[1..], bad);
      if names[0] in bad {
        assert [] + w == w;
      } else {
        assert ([names[0]] + w)[1..] == w;
      }
    }
  }

  lemma {:induction false} NoneUndeclared(names: seq<Name>, declared: set<Name>)
    requires Undeclared(names, declared) == 0
    ensures forall n :: n in names ==> n in declared
  {
    if names != [] {
      assert names == [names[0]] + names[1..];
      NoneUndeclared(names[1..], declared);
    }
  }

  lemma SizeOfOnly(names: seq<Name>, headers: nat, l: nat)
    requires var s := Source(names, headers); 0 < l <= |s| && s[l - 1].SizeOf?
    ensures Source(names, headers)[l - 1].n in names
  {
    var i := l - 1 - (headers + 6);
    assert 0 <= i < 5 * |names|;
    BlocksAt(names, i / 5, i % 5);
    assert i == 5 * (i / 5) + i % 5;
  }

  datatype Outcome = Declared(names: set<Name>) | NotAName | NoConvergence

  const ROUNDS := 40

  function SetOf(names: seq<Name>): set<Name> {
    set n | n in names
  }

  /** `probe`'s loop: under an honest compiler it never gives up for a reason that is not a missing name, any set it
    * returns is exactly the declared names, and it fails to converge only on as many missing probes as it has
    * rounds. */
  method Probe(names: seq<Name>, headers: nat, compile: Compiler, ghost declared: set<Name>) returns (r: Outcome)
    requires Honest(compile, declared, headers)
    ensures r != NotAName
    ensures r.Declared? ==> r.names == (set n | n in names && n in declared)
    ensures r.NoConvergence? ==> Undeclared(names, declared) >= ROUNDS
  {
    var present := names;
    for round := 0 to ROUNDS
      invariant forall n :: n in present ==> n in names
      invariant forall n :: n in names && n in declared ==> n in present
      invariant Undeclared(present, declared) + round <= Undeclared(names, declared)
    {
      var text, where := ProbeSource(present, headers);
      assert HonestOn(compile, declared, Source(present, headers));
      var v := compile(text);
      if v.ok {
        Compiles(present, headers, declared);
        return Declared(SetOf(present));
      }
      var bad := set l | l in v.lines && l in where :: where[l];
      ghost var l :| l in v.lines && 0 < l <= |text| && text[l - 1].SizeOf?;
      assert where[l] in bad;
      if bad == {} {
        assert false;
        return NotAName;
      }
      SizeOfOnly(present, headers, l);
      assert bad !! declared;
      Dropping(present, bad, declared, where[l]);
      present := Without(present, bad);
    }
    return NoConvergence;
  }

  lemma Compiles(present: seq<Name>, headers: nat, declared: set<Name>)
    requires var s := Source(present, headers); forall i :: 0 <= i < |s| && s[i].SizeOf? ==> s[i].n in declared
    ensures forall n :: n in present ==> n in declared
  {
    forall n | n in present ensures n in declared {
      var k :| 0 <= k < |present| && present[k] == n;
      BlocksAt(present, k, 3);
      assert Source(present, headers)[ProbeLine(headers, k) - 1] == SizeOf(n);
    }
  }
}

/** The audit of generated bodies (dev/check_out_params.py:74-133): whether an out parameter is defined on every path to
  * an early return, decided by a backward scan of indentation. */
module OutParamAudit {
  /** What the scan sees of a line: its indentation, and whether it gives the parameter a value. */
  datatype Line = Line(blank: bool, indent: nat, assigns: bool)

  /** The scan, from the last line of `ls` upwards: lines deeper than the floor are skipped, any other lowers it. */
  function Scan(ls: seq<Line>, floor: nat): bool {
    if ls == [] then false
    else
      var last, rest := ls[|ls| - 1], ls[..|ls| - 1];
      if last.blank || last.indent > floor then Scan(rest, floor)
      else last.assigns || Scan(rest, last.indent)
  }

  /** `in_scope`, as it is written. */
  method InScope(lines: seq<Line>, r: nat) returns (found: bool)
    requires r < |lines|
    ensures found == Scan(lines[..r], lines[r].indent)
  {
    var floor := lines[r].indent;
    var k := r;
    while k > 0
      invariant k <= r && Scan(lines[..r], lines[r].indent) == Scan(lines[..k], floor)
    {
      var line := lines[k - 1];
      assert lines[..k][..k - 1] == lines[..k - 1];
      k := k - 1;
      if line.blank || line.indent > floor { continue; }
      floor := line.indent;
      if line.assigns { return true; }
    }
    return false;
  }

  // ---------------------------------------------------------------- block-structured bodies

  /** A body: plain lines, conditionals and loops that may be skipped, blocks that are always entered, and
    * alternatives. */
  datatype Node =
    | Blank
    | Stmt(assigns: bool)
    | Cond(kids: seq<Node>, braced: bool)
    | Scope(kids: seq<Node>)
    | Either(yes: seq<Node>, no: seq<Node>)

  function Header(d: nat): seq<Line> {
    [Line(false, d, false)]
  }

  /** The indented text of one node: bodies two columns in, their headers and closing braces at the node's own. */
  function PrintOne(node: Node, d: nat): seq<Line>
    decreases node, 0
  {
    match node
    case Blank => [Line(true, 0, false)]
    case Stmt(a) => [Line(false, d, a)]
    case Cond(kids, braced) => Header(d) + Print(kids, d + 2) + if braced then Header(d) else []
    case Scope(kids) => Header(d) + Print(kids, d + 2) + Header(d)
    case Either(yes, no) => Header(d) + Print(yes, d + 2) + Header(d) + Print(no, d + 2) + Header(d)
  }

  function Print(nodes: seq<Node>, d: nat): seq<Line>
    decreases nodes, 1
  {
    if nodes == [] then [] else PrintOne(nodes[0], d) + Print(nodes[1..], d)
  }

  /** Every printed line is at or right of the margin. */
  predicate Right(ls: seq<Line>, d: nat) {
    forall i :: 0 <= i < |ls| ==> ls[i].blank || ls[i].indent >= d
  }

  lemma {:induction false} PrintOneRight(node: Node, d: nat)
    ensures Right(PrintOne(node, d), d) && |PrintOne(node, d)| > 0
    decreases node, 0
  {
    match node
    case Cond(kids, _) => PrintRight(kids, d + 2);
    case Scope(kids) => PrintRight(kids, d + 2);
    case Either(yes, no) => PrintRight(yes, d + 2); PrintRight(no, d + 2);
    case _ =>
  }

  lemma {:induction false} PrintRight(nodes: seq<Node>, d: nat)
    ensures Right(Print(nodes, d), d)
    decreases nodes, 1
  {
    if nodes != [] {
      PrintOneRight(nodes[0], d);
      PrintRight(nodes[1..], d);
    }
  }

  // ---------------------------------------------------------------- what executions do

  /** The states -- parameter assigned or not -- in which executing a node can leave, entered in state a.  A loop body
    * runs any number of times; two rounds reach every state, since an assignment is never undone. */
  function Leaves(node: Node, a: bool): set<bool>
    decreases node, 0
  {
    match node
    case Blank => {a}
    case Stmt(x) => {a || x}
    case Cond(kids, _) => Rounds(kids, a)
    case Scope(kids) => LeavesAll(kids, a)
    case Either(yes, no) => LeavesAll(yes, a) + LeavesAll(no, a)
  }

  function LeavesAll(nodes: seq<Node>, a: bool): set<bool>
    decreases nodes, 1
  {
    if nodes == [] then {a}
    else
      var mid := Leaves(nodes[0], a);
      (if false in mid then LeavesAll(nodes[1..], false) else {})
      + if true in mid then LeavesAll(nodes[1..], true) else {}
  }

  function Rounds(kids: seq<Node>, a: bool): set<bool>
    decreases kids, 2
  {
    var once := {a} + LeavesAll(kids, a);
    once + (if false in once then LeavesAll(kids, false) else {}) + if true in once then LeavesAll(kids, true) else {}
  }

  /** The states in which executions arrive at line k of a node, entered in state a. */
  function Arrives(node: Node, k: nat, a: bool): set<bool>
    requires k < |PrintOne(node, 0)|
    decreases node, 0
  {
    match node
    case Blank => {a}
    case Stmt(_) => {a}
    case Cond(kids, _) =>
      var n := |Print(kids, 2)|;
      if k == 0 then Rounds(kids, a)
      else if k <= n then
        SameSize(kids, 0, 2);
        FromAny(kids, k - 1, Rounds(kids, a))
      else Rounds(kids, a)
    case Scope(kids) =>
      var n := |Print(kids, 2)|;
      if k == 0 then {a}
      else if k <= n then
        SameSize(kids, 0, 2);
        ArrivesAll(kids, k - 1, a)
      else LeavesAll(kids, a)
    case Either(yes, no) =>
      var n, m := |Print(yes, 2)|, |Print(no, 2)|;
      if k == 0 then {a}
      else if k <= n then
        SameSize(yes, 0, 2);
        ArrivesAll(yes, k - 1, a)
      else if k == n + 1 then {a}
      else if k <= n + 1 + m then
        SameSize(no, 0, 2);
        ArrivesAll(no, k - n - 2, a)
      else LeavesAll(yes, a) + LeavesAll(no, a)
  }

  function FromAny(kids: seq<Node>, k: nat, from: set<bool>): (r: set<bool>)
    requires k < |Print(kids, 0)|
    ensures forall x :: x in r <==> exists y :: y in from && x in ArrivesAll(kids, k, y)
    decreases kids, 2
  {
    (if false in from then ArrivesAll(kids, k, false) else {}) + if true in from then ArrivesAll(kids, k, true) else {}
  }

  function ArrivesAll(nodes: seq<Node>, k: nat, a: bool): set<bool>
    requires k < |Print(nodes, 0)|
    decreases nodes, 1
  {
    var n := |PrintOne(nodes[0], 0)|;
    if k < n then Arrives(nodes[0], k, a)
    else
      var mid := Leaves(nodes[0], a);
      (if false in mid then ArrivesAll(nodes[1..], k - n, false) else {})
      + if true in mid then ArrivesAll(nodes[1..], k - n, true) else {}
  }

  lemma {:induction false} SameSizeOne(node: Node, d: nat, e: nat)
    ensures |PrintOne(node, d)| == |PrintOne(node, e)|
    decreases node, 0
  {
    match node
    case Cond(kids, _) => SameSize(kids, d + 2, e + 2);
    case Scope(kids) => SameSize(kids, d + 2, e + 2);
    case Either(yes, no) => SameSize(yes, d + 2, e + 2); SameSize(no, d + 2, e + 2);
    case _ =>
  }

  lemma {:induction false} SameSize(nodes: seq<Node>, d: nat, e: nat)
    ensures |Print(nodes, d)| == |Print(nodes, e)|
    decreases nodes, 1
  {
    if nodes != [] {
      SameSizeOne(nodes[0], d, e);
      SameSize(nodes[1..], d, e);
    }
  }

  // ---------------------------------------------------------------- structural dominance

  /** The parameter is assigned by a plain line before line k at its own level or at a level around it. */
  function Dominated(node: Node, k: nat, a: bool): bool
    requires k < |PrintOne(node, 0)|
    decreases node, 0
  {
    match node
    case Blank => a
    case Stmt(_) => a
    case Cond(kids, _) =>
      SameSize(kids, 0, 2);
      if 0 < k <= |Print(kids, 0)| then DominatedAll(kids, k - 1, a) else a
    case Scope(kids) =>
      SameSize(kids, 0, 2);
      if 0 < k <= |Print(kids, 0)| then DominatedAll(kids, k - 1, a) else a
    case Either(yes, no) =>
      SameSize(yes, 0, 2);
      SameSize(no, 0, 2);
      var n, m := |Print(yes, 0)|, |Print(no, 0)|;
      if 0 < k <= n then DominatedAll(yes, k - 1, a)
      else if n + 1 < k <= n + 1 + m then DominatedAll(no, k - n - 2, a)
      else a
  }

  function DominatedAll(nodes: seq<Node>, k: nat, a: bool): bool
    requires k < |Print(nodes, 0)|
    decreases nodes, 1
  {
    var n := |PrintOne(nodes[0], 0)|;
    if k < n then Dominated(nodes[0], k, a)
    else DominatedAll(nodes[1..], k - n, a || (nodes[0].Stmt? && nodes[0].assigns))
  }

  // ---------------------------------------------------------------- the scan computes structural dominance

  /** Lines deeper than the floor are as if they were not there. */
  lemma {:induction false} ScanSkips(pre: seq<Line>, deep: seq<Line>, floor: nat)
    requires Right(deep, floor + 1)
    ensures Scan(pre + deep, floor) == Scan(pre, floor)
    decreases |deep|
  {
    if deep == [] {
      assert pre + deep == pre;
    } else {
      var n := |deep| - 1;
      assert (pre + deep)[..|pre + deep| - 1] == pre + deep[..n];
      assert (pre + deep)[|pre + deep| - 1] == deep[n];
      ScanSkips(pre, deep[..n], floor);
    }
  }

  lemma ScanHeader(pre: seq<Line>, d: nat, floor: nat)
    requires d <= floor
    ensures Scan(pre + Header(d), floor) == Scan(pre, d)
  {
    assert (pre + Header(d))[..|pre|] == pre;
  }

  /** Past a whole node, the scan has met its direct assignment, if it is a plain line, and nothing inside it. */
  lemma ScanNode(pre: seq<Line>, node: Node, d: nat)
    ensures Scan(pre + PrintOne(node, d), d) == (Scan(pre, d) || (node.Stmt? && node.assigns))
  {
    match node
    case Blank => ScanLine(pre, Line(true, 0, false), d);
    case Stmt(a) => ScanLine(pre, Line(false, d, a), d);
    case Cond(kids, braced) => ScanBody(pre, kids, d, if braced then Header(d) else []);
    case Scope(kids) => ScanBody(pre, kids, d, Header(d));
    case Either(yes, no) => ScanBoth(pre, yes, no, d);
  }

  lemma ScanLine(pre: seq<Line>, line: Line, d: nat)
    requires line.blank || line.indent == d
    ensures Scan(pre + [line], d) == (Scan(pre, d) || (!line.blank && line.assigns))
  {
    assert (pre + [line])[..|pre|] == pre;
  }

  lemma ScanBoth(pre: seq<Line>, yes: seq<Node>, no: seq<Node>, d: nat)
    ensures Scan(pre + PrintOne(Either(yes, no), d), d) == Scan(pre, d)
  {
    var top, bottom := Header(d) + Print(yes, d + 2) + [], Header(d) + Print(no, d + 2) + Header(d);
    ScanBody(pre, yes, d, []);
    ScanBody(pre + top, no, d, Header(d));
    SplitEither(pre, Print(yes, d + 2), Print(no, d + 2), d);
    assert pre + PrintOne(Either(yes, no), d) == (pre + top) + bottom;
  }

  lemma SplitEither(pre: seq<Line>, y: seq<Line>, n: seq<Line>, d: nat)
    ensures pre + (Header(d) + y + Header(d) + n + Header(d)) ==
            (pre + (Header(d) + y + [])) + (Header(d) + n + Header(d))
    ensures Header(d) + y + Header(d) + n + Header(d) == (Header(d) + y + []) + (Header(d) + n + Header(d))
  {
  }

  lemma ScanBody(pre: seq<Line>, kids: seq<Node>, d: nat, close: seq<Line>)
    requires close == [] || close == Header(d)
    ensures Scan(pre + (Header(d) + Print(kids, d + 2) + close), d) == Scan(pre, d)
  {
    PrintRight(kids, d + 2);
    var open, body := pre + Header(d), Print(kids, d + 2);
    assert pre + (Header(d) + body + close) == (open + body) + close;
    if close != [] { ScanHeader(open + body, d, d); } else { assert (open + body) + close == open + body; }
    ScanSkips(open, body, d);
    ScanHeader(pre, d, d);
  }

  /** From inside a body, the scan has dropped to the body's margin by the time it leaves it, and so sees what comes
    * before with the floor of the header. */
  lemma {:induction false} ScanInside(pre: seq<Line>, nodes: seq<Node>, d: nat, k: nat)
    requires k < |Print(nodes, d)| && !Print(nodes, d)[k].blank
    ensures k < |Print(nodes, 0)|
    ensures Scan(pre + Print(nodes, d)[..k], Print(nodes, d)[k].indent) == DominatedAll(nodes, k, Scan(pre, d))
    decreases nodes, 1
  {
    SameSize(nodes, d, 0);
    SameSizeOne(nodes[0], d, 0);
    var first, rest := PrintOne(nodes[0], d), Print(nodes[1..], d);
    var n := |first|;
    if k < n {
      assert (first + rest)[..k] == first[..k];
      ScanInsideOne(pre, nodes[0], d, k);
    } else {
      assert (first + rest)[..k] == first + rest[..k - n];
      assert pre + (first + rest[..k - n]) == (pre + first) + rest[..k - n];
      ScanInside(pre + first, nodes[1..], d, k - n);
      ScanNode(pre, nodes[0], d);
    }
  }

  lemma {:induction false} ScanInsideOne(pre: seq<Line>, node: Node, d: nat, k: nat)
    requires k < |PrintOne(node, d)| && !PrintOne(node, d)[k].blank
    ensures k < |PrintOne(node, 0)|
    ensures Scan(pre + PrintOne(node, d)[..k], PrintOne(node, d)[k].indent) == Dominated(node, k, Scan(pre, d))
    decreases node, 1
  {
    SameSizeOne(node, d, 0);
    match node
    case Blank =>
    case Stmt(_) => assert pre + PrintOne(node, d)[..0] == pre;
    case Cond(kids, braced) => ScanInsideBody(pre, kids, d, if braced then Header(d) else [], k);
    case Scope(kids) => ScanInsideBody(pre, kids, d, Header(d), k);
    case Either(yes, no) => ScanInsideBoth(pre, yes, no, d, k);
  }

  lemma {:induction false} ScanInsideBoth(pre: seq<Line>, yes: seq<Node>, no: seq<Node>, d: nat, k: nat)
    requires k < |PrintOne(Either(yes, no), d)| && !PrintOne(Either(yes, no), d)[k].blank
    ensures k < |PrintOne(Either(yes, no), 0)|
    ensures Scan(pre + PrintOne(Either(yes, no), d)[..k], PrintOne(Either(yes, no), d)[k].indent) ==
            Dominated(Either(yes, no), k, Scan(pre, d))
    decreases Either(yes, no), 0
  {
    var node := Either(yes, no);
    SameSizeOne(node, d, 0);
    var n := |Print(yes, d + 2)|;
    SameSize(yes, d + 2, 0);
    SameSize(no, d + 2, 0);
    var top, bottom := Header(d) + Print(yes, d + 2) + [], Header(d) + Print(no, d + 2) + Header(d);
    SplitEither(pre, Print(yes, d + 2), Print(no, d + 2), d);
    assert PrintOne(node, d) == top + bottom;
    if k <= n {
      TopHalf(top, bottom, k);
      ScanInsideBody(pre, yes, d, [], k);
    } else {
      BottomHalf(pre, top, bottom, k);
      ScanInsideBody(pre + top, no, d, Header(d), k - n - 1);
      ScanBody(pre, yes, d, []);
    }
  }

  lemma TopHalf(top: seq<Line>, bottom: seq<Line>, k: nat)
    requires k < |top|
    ensures (top + bottom)[..k] == top[..k] && (top + bottom)[k] == top[k]
  {
  }

  lemma BottomHalf(pre: seq<Line>, top: seq<Line>, bottom: seq<Line>, k: nat)
    requires |top| <= k < |top| + |bottom|
    ensures pre + (top + bottom)[..k] == (pre + top) + bottom[..k - |top|] && (top + bottom)[k] == bottom[k - |top|]
  {
  }

  lemma {:induction false} ScanInsideBody(pre: seq<Line>, kids: seq<Node>, d: nat, close: seq<Line>, k: nat)
    requires close == [] || close == Header(d)
    requires var ls := Header(d) + Print(kids, d + 2) + close; k < |ls| && !ls[k].blank
    ensures |Print(kids, 0)| == |Print(kids, d + 2)|
    ensures var ls := Header(d) + Print(kids, d + 2) + close;
      Scan(pre + ls[..k], ls[k].indent) ==
        if 0 < k <= |Print(kids, 0)| then DominatedAll(kids, k - 1, Scan(pre, d)) else Scan(pre, d)
    decreases kids, 2
  {
    var body := Print(kids, d + 2);
    var ls := Header(d) + body + close;
    SameSize(kids, d + 2, 0);
    if k == 0 {
      assert pre + ls[..0] == pre;
    } else if k <= |body| {
      assert ls[..k] == Header(d) + body[..k - 1] && ls[k] == body[k - 1];
      assert pre + (Header(d) + body[..k - 1]) == (pre + Header(d)) + body[..k - 1];
      ScanInside(pre + Header(d), kids, d + 2, k - 1);
      ScanHeader(pre, d, d + 2);
    } else {
      assert ls[..k] == Header(d) + body + [];
      ScanBody(pre, kids, d, []);
    }
  }

  /** On the printed text of any body, the scan answers whether an assignment structurally dominates the line. */
  lemma ScanIsDominance(nodes: seq<Node>, d: nat, k: nat)
    requires k < |Print(nodes, d)| && !Print(nodes, d)[k].blank
    ensures k < |Print(nodes, 0)|
    ensures Scan(Print(nodes, d)[..k], Print(nodes, d)[k].indent) == DominatedAll(nodes, k, false)
  {
    ScanInside([], nodes, d, k);
    assert [] + Print(nodes, d)[..k] == Print(nodes, d)[..k];
  }

  // ---------------------------------------------------------------- dominance and executions

  lemma {:induction false} AssignedStays(nodes: seq<Node>)
    ensures LeavesAll(nodes, true) == {true} && Rounds(nodes, true) == {true}
    decreases nodes, 2
  {
    if nodes != [] {
      AssignedStaysOne(nodes[0]);
      AssignedStays(nodes[1..]);
    }
  }

  lemma {:induction false} AssignedStaysOne(node: Node)
    ensures Leaves(node, true) == {true}
    decreases node, 0
  {
    match node
    case Cond(kids, _) => AssignedStays(kids);
    case Scope(kids) => AssignedStays(kids);
    case Either(yes, no) => AssignedStays(yes); AssignedStays(no);
    case _ =>
  }

  /** The states after n rounds of a loop. */
  function After(kids: seq<Node>, a: bool, n: nat): set<bool> {
    if n == 0 then {a} else set x: bool, y: bool | y in After(kids, a, n - 1) && x in LeavesAll(kids, y) :: x
  }

  lemma AfterMore(kids: seq<Node>, a: bool, n: nat)
    ensures forall y, x :: y in After(kids, a, n) && x in LeavesAll(kids, y) ==> x in After(kids, a, n + 1)
  {
  }

  lemma {:induction false} NoMoreRounds(kids: seq<Node>, a: bool, n: nat)
    ensures After(kids, a, n) <= Rounds(kids, a)
  {
    AssignedStays(kids);
    if n > 0 { NoMoreRounds(kids, a, n - 1); }
  }

  /** Two rounds do reach every state that any number of rounds reaches, and no other. */
  lemma RoundsExactly(kids: seq<Node>, a: bool, x: bool)
    ensures x in Rounds(kids, a) <==> exists n: nat :: x in After(kids, a, n)
  {
    forall n: nat ensures After(kids, a, n) <= Rounds(kids, a) { NoMoreRounds(kids, a, n); }
    if x in Rounds(kids, a) {
      var none: nat := 0;
      AfterMore(kids, a, none);
      assert a in After(kids, a, none);
      if x != a {
        AssignedStays(kids);
        assert x in LeavesAll(kids, a);
        assert x in After(kids, a, none + 1);
      }
    }
  }

  /** Every execution that arrives at a dominated line has assigned the parameter. */
  lemma {:induction false} Sound(nodes: seq<Node>, k: nat, a: bool)
    requires k < |Print(nodes, 0)|
    ensures DominatedAll(nodes, k, a) ==> false !in ArrivesAll(nodes, k, a)
    decreases nodes, 1
  {
    var n := |PrintOne(nodes[0], 0)|;
    if k < n {
      SoundOne(nodes[0], k, a);
    } else {
      AssignedStaysOne(nodes[0]);
      Sound(nodes[1..], k - n, true);
      Sound(nodes[1..], k - n, false);
      DominatedMonotone(nodes[1..], k - n);
    }
  }

  lemma {:induction false} DominatedMonotone(nodes: seq<Node>, k: nat)
    requires k < |Print(nodes, 0)|
    ensures DominatedAll(nodes, k, true)
    decreases nodes, 1
  {
    var n := |PrintOne(nodes[0], 0)|;
    if k < n { DominatedMonotoneOne(nodes[0], k); } else { DominatedMonotone(nodes[1..], k - n); }
  }

  lemma {:induction false} DominatedMonotoneOne(node: Node, k: nat)
    requires k < |PrintOne(node, 0)|
    ensures Dominated(node, k, true)
    decreases node, 0
  {
    match node
    case Cond(kids, _) =>
      SameSize(kids, 0, 2);
      if 0 < k <= |Print(kids, 0)| { DominatedMonotone(kids, k - 1); }
    case Scope(kids) =>
      SameSize(kids, 0, 2);
      if 0 < k <= |Print(kids, 0)| { DominatedMonotone(kids, k - 1); }
    case Either(yes, no) =>
      SameSize(yes, 0, 2);
      SameSize(no, 0, 2);
      var n, m := |Print(yes, 0)|, |Print(no, 0)|;
      if 0 < k <= n { DominatedMonotone(yes, k - 1); }
      else if n + 1 < k <= n + 1 + m { DominatedMonotone(no, k - n - 2); }
    case _ =>
  }

  lemma {:induction false} SoundOne(node: Node, k: nat, a: bool)
    requires k < |PrintOne(node, 0)|
    ensures Dominated(node, k, a) ==> false !in Arrives(node, k, a)
    decreases node, 1
  {
    match node
    case Cond(kids, _) =>
      SameSize(kids, 0, 2);
      if a { AssignedStays(kids); }
      if 0 < k <= |Print(kids, 0)| {
        Sound(kids, k - 1, true);
        Sound(kids, k - 1, false);
        DominatedMonotone(kids, k - 1);
      }
    case Scope(kids) =>
      SameSize(kids, 0, 2);
      if a { AssignedStays(kids); }
      if 0 < k <= |Print(kids, 0)| { Sound(kids, k - 1, a); }
    case Either(yes, no) => SoundEither(yes, no, k, a);
    case _ =>
  }

  lemma {:induction false} SoundEither(yes: seq<Node>, no: seq<Node>, k: nat, a: bool)
    requires k < |PrintOne(Either(yes, no), 0)|
    ensures Dominated(Either(yes, no), k, a) ==> false !in Arrives(Either(yes, no), k, a)
    decreases Either(yes, no), 0
  {
    SameSize(yes, 0, 2);
    SameSize(no, 0, 2);
    if a { AssignedStays(yes); AssignedStays(no); }
    var n, m := |Print(yes, 0)|, |Print(no, 0)|;
    if 0 < k <= n { Sound(yes, k - 1, a); }
    else if n + 1 < k <= n + 1 + m { Sound(no, k - n - 2, a); }
  }

  /** A body whose only blocks are ones an execution may skip. */
  predicate Skippable(nodes: seq<Node>)
    decreases nodes, 1
  {
    nodes != [] ==> SkippableOne(nodes[0]) && Skippable(nodes[1..])
  }

  predicate SkippableOne(node: Node)
    decreases node, 0
  {
    match node
    case Blank => true
    case Stmt(_) => true
    case Cond(kids, _) => Skippable(kids)
    case _ => false
  }

  lemma UnassignedLeaves(node: Node)
    requires SkippableOne(node) && !node.Stmt?
    ensures false in Leaves(node, false)
  {
    if node.Cond? { assert false in Rounds(node.kids, false); }
  }

  /** There, the scan misses nothing: where it finds no assignment, some execution arrives without one. */
  lemma {:induction false} Complete(nodes: seq<Node>, k: nat)
    requires k < |Print(nodes, 0)| && Skippable(nodes)
    ensures !DominatedAll(nodes, k, false) ==> false in ArrivesAll(nodes, k, false)
    decreases nodes, 1
  {
    var n := |PrintOne(nodes[0], 0)|;
    if k < n {
      CompleteOne(nodes[0], k);
    } else {
      Complete(nodes[1..], k - n);
      DominatedMonotone(nodes[1..], k - n);
      if !nodes[0].Stmt? { UnassignedLeaves(nodes[0]); }
    }
  }

  lemma {:induction false} CompleteOne(node: Node, k: nat)
    requires k < |PrintOne(node, 0)| && SkippableOne(node)
    ensures !Dominated(node, k, false) ==> false in Arrives(node, k, false)
    decreases node, 0
  {
    match node
    case Cond(kids, _) =>
      SameSize(kids, 0, 2);
      if 0 < k <= |Print(kids, 0)| { Complete(kids, k - 1); }
    case _ =>
  }

  /** `in_scope`'s answer about the printed text of a body: true only if every execution reaching the line has assigned
    * the parameter; and exactly then, where every block can be skipped. */
  lemma InScopeMeaning(nodes: seq<Node>, d: nat, k: nat)
    requires k < |Print(nodes, d)| && !Print(nodes, d)[k].blank
    ensures k < |Print(nodes, 0)|
    ensures Scan(Print(nodes, d)[..k], Print(nodes, d)[k].indent) ==> ArrivesAll(nodes, k, false) <= {true}
    ensures Skippable(nodes) ==>
      (Scan(Print(nodes, d)[..k], Print(nodes, d)[k].indent) <==> false !in ArrivesAll(nodes, k, false))
  {
    ScanIsDominance(nodes, d, k);
    Sound(nodes, k, false);
    assert false !in ArrivesAll(nodes, k, false) ==> ArrivesAll(nodes, k, false) <= {true} by {
      forall x | x in ArrivesAll(nodes, k, false) && false !in ArrivesAll(nodes, k, false) ensures x in {true} {
        assert x || x == false;
      }
    }
    if Skippable(nodes) { Complete(nodes, k); }
  }

  /** Beyond that it errs only on the safe side: an assignment inside a block that is always entered is not seen. */
  lemma MissesAlwaysEntered()
    ensures var nodes := [Scope([Stmt(true)]), Stmt(false)];
      |Print(nodes, 0)| == 4 && ArrivesAll(nodes, 3, false) == {true} && !DominatedAll(nodes, 3, false)
  {
    var inner := [Stmt(true)];
    var last := [Stmt(false)];
    assert Print(inner, 2) == [Line(false, 2, true)] by { assert inner[1..] == []; }
    assert Print(last, 0) == [Line(false, 0, false)] by { assert last[1..] == []; }
    var nodes := [Scope(inner), Stmt(false)];
    assert nodes[1..] == last;
    assert PrintOne(Scope(inner), 0) == Header(0) + Print(inner, 2) + Header(0);
    assert LeavesAll(inner, false) == {true} by { assert inner[1..] == []; }
    assert Leaves(Scope(inner), false) == {true};
    assert ArrivesAll(last, 0, true) == {true};
    assert !DominatedAll(last, 0, false);
  }

  // ---------------------------------------------------------------- the audit

  /** `audit` for one arm and one parameter: every exit before the call that the scan does not clear. */
  method Audit(lines: seq<Line>, exits: seq<bool>, cut: nat) returns (findings: seq<nat>)
    requires |exits| == |lines| && cut <= |lines|
    ensures forall r :: r in findings <==> 0 <= r < cut && exits[r] && !Scan(lines[..r], lines[r].indent)
    ensures forall i, j :: 0 <= i < j < |findings| ==> findings[i] < findings[j]
  {
    findings := [];
    for r := 0 to cut
      invariant forall q :: q in findings <==> 0 <= q < r && exits[q] && !Scan(lines[..q], lines[q].indent)
      invariant forall i, j :: 0 <= i < j < |findings| ==> findings[i] < findings[j]
    {
      if exits[r] {
        var defined := InScope(lines, r);
        if !defined {
          assert forall i :: 0 <= i < |findings| ==> findings[i] in findings;
          findings := findings + [r];
        }
      }
    }
  }
}

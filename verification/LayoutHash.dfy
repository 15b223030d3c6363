/** The layout hash of the vtable header (dev/layout_hash.py:30-43), the line breaking of the slots it hashes
  * (dev/generate.py:1700-1721), and the two passes that write it into the header (dev/generate.py:3091-3115). */
module LayoutHash {
  import opened Powers

  // ---------------------------------------------------------------- FNV-1a

  const M: nat := 0x1_0000_0000
  const OFFSET: nat := 0x811C_9DC5
  const PRIME: nat := 0x0100_0193

  /** The prime is odd, so multiplying by it can be undone modulo 2^32. */
  const INVERSE: nat := 0x359C_449B

  type Byte = b: nat | b < 256

  /** Exclusive or of the low k bits. */
  function Xor(a: nat, b: nat, k: nat): (r: nat)
    ensures r < Pow2(k)
  {
    if k == 0 then 0 else (a + b) % 2 + 2 * Xor(a / 2, b / 2, k - 1)
  }

  lemma Halves(bit: nat, x: nat)
    requires bit < 2
    ensures (bit + 2 * x) % 2 == bit && (bit + 2 * x) / 2 == x
  {
  }

  lemma OddSum(r: nat, b: nat)
    ensures (r + b) % 2 == (r % 2 + b) % 2
  {
  }

  lemma SameBit(a: nat, b: nat)
    ensures ((a + b) % 2 + b) % 2 == a % 2
  {
  }

  lemma {:induction false} XorTwice(a: nat, b: nat, k: nat)
    requires a < Pow2(k)
    ensures Xor(Xor(a, b, k), b, k) == a
    decreases k
  {
    if k > 0 {
      XorTwice(a / 2, b / 2, k - 1);
      Halves((a + b) % 2, Xor(a / 2, b / 2, k - 1));
      SameBit(a, b);
      OddSum((a + b) % 2 + 2 * Xor(a / 2, b / 2, k - 1), b);
    }
  }

  lemma {:induction false} XorCommutes(a: nat, b: nat, k: nat)
    ensures Xor(a, b, k) == Xor(b, a, k)
    decreases k
  {
    if k > 0 { XorCommutes(a / 2, b / 2, k - 1); }
  }

  function Times(x: nat): (r: nat)
    ensures r < M
  {
    x * PRIME % M
  }

  function Mix(h: nat, b: Byte): (r: nat)
    ensures r < M
  {
    Times(Xor(h, b, 32))
  }

  lemma ModTimes(a: nat, c: nat)
    requires c == INVERSE
    ensures (a % M) * c % M == a * c % M
  {
    var q := a / M;
    assert a * c == (a % M) * c + (q * c) * M;
    ModPlus((a % M) * c, q * c);
  }

  lemma ModPlus(x: nat, q: nat)
    ensures (x + q * M) % M == x % M
  {
  }

  /** Multiplication by the prime loses nothing. */
  lemma TimesInverts(x: nat)
    requires x < M
    ensures Times(x) * INVERSE % M == x
  {
    ModTimes(x * PRIME, INVERSE);
    assert PRIME * INVERSE == 1 + (PRIME * INVERSE / M) * M;
    assert x * PRIME * INVERSE == x + (x * (PRIME * INVERSE / M)) * M;
    ModPlus(x, x * (PRIME * INVERSE / M));
  }

  /** One step is injective in the state, and in the byte. */
  lemma MixInjective(h: nat, g: nat, b: Byte, c: Byte)
    requires h < M && g < M && Mix(h, b) == Mix(g, c)
    ensures b == c ==> h == g
    ensures h == g ==> b == c
  {
    PowWidths();
    TimesInverts(Xor(h, b, 32));
    TimesInverts(Xor(g, c, 32));
    XorTwice(h, b, 32);
    XorTwice(g, c, 32);
    XorCommutes(h, b, 32);
    XorCommutes(g, c, 32);
    XorTwice(b, h, 32);
    XorTwice(c, g, 32);
  }

  function FnvFrom(h: nat, text: seq<Byte>): (r: nat)
    requires h < M
    ensures r < M
    decreases |text|
  {
    if text == [] then h else FnvFrom(Mix(h, text[0]), text[1..])
  }

  /** fnv1a32 */
  method Fnv(text: seq<Byte>) returns (h: nat)
    ensures h == FnvFrom(OFFSET, text)
  {
    h := OFFSET;
    for i := 0 to |text|
      invariant h < M && FnvFrom(OFFSET, text) == FnvFrom(h, text[i..])
    {
      assert text[i..][1..] == text[i + 1..];
      h := Mix(h, text[i]);
    }
  }

  lemma {:induction false} StatesStayApart(h: nat, g: nat, text: seq<Byte>)
    requires h < M && g < M && h != g
    ensures FnvFrom(h, text) != FnvFrom(g, text)
    decreases |text|
  {
    if text != [] {
      if Mix(h, text[0]) == Mix(g, text[0]) { MixInjective(h, g, text[0], text[0]); }
      StatesStayApart(Mix(h, text[0]), Mix(g, text[0]), text[1..]);
    }
  }

  /** Two texts of one length that differ in exactly one byte never hash alike. */
  lemma {:induction false} OneByteShows(h: nat, s: seq<Byte>, t: seq<Byte>, i: nat)
    requires h < M && i < |s| == |t| && s[i] != t[i] && forall j :: 0 <= j < |s| && j != i ==> s[j] == t[j]
    ensures FnvFrom(h, s) != FnvFrom(h, t)
    decreases |s|
  {
    if i == 0 {
      assert s[1..] == t[1..];
      if Mix(h, s[0]) == Mix(h, t[0]) { MixInjective(h, h, s[0], t[0]); }
      StatesStayApart(Mix(h, s[0]), Mix(h, t[0]), s[1..]);
    } else {
      OneByteShows(Mix(h, s[0]), s[1..], t[1..], i - 1);
    }
  }

  // ---------------------------------------------------------------- breaking a declaration over lines

  predicate Space(c: char) {
    c == ' ' || c == '\n'
  }

  /** Whitespace is not part of what is hashed. */
  function Strip(s: string): string {
    if s == [] then [] else (if Space(s[0]) then [] else [s[0]]) + Strip(s[1..])
  }

  lemma {:induction false} StripConcat(a: string, b: string)
    ensures Strip(a + b) == Strip(a) + Strip(b)
    decreases |a|
  {
    if a == [] {
      assert a + b == b;
    } else {
      assert (a + b)[1..] == a[1..] + b;
      StripConcat(a[1..], b);
    }
  }

  lemma {:induction false} StripBlank(s: string)
    requires forall k :: 0 <= k < |s| ==> Space(s[k])
    ensures Strip(s) == []
  {
    if s != [] { StripBlank(s[1..]); }
  }

  function Spaces(n: nat): (s: string)
    ensures |s| == n && forall k :: 0 <= k < n ==> s[k] == ' '
  {
    seq(n, _ => ' ')
  }

  /** Python's `str.rstrip`. */
  function RStrip(s: string): (r: string)
    ensures Strip(r) == Strip(s) && |r| <= |s| && (s != [] && Space(s[|s| - 1]) ==> |r| < |s|)
    decreases |s|
  {
    if s == [] || !Space(s[|s| - 1]) then s
    else
      assert s == s[..|s| - 1] + [s[|s| - 1]];
      StripConcat(s[..|s| - 1], [s[|s| - 1]]);
      RStrip(s[..|s| - 1])
  }

  function Lines(lines: seq<string>): string {
    if lines == [] then "" else lines[0] + "\n" + Lines(lines[1..])
  }

  lemma {:induction false} LinesConcat(lines: seq<string>, last: string)
    ensures Strip(Lines(lines + [last])) == Strip(Lines(lines)) + Strip(last)
    decreases |lines|
  {
    if lines == [] {
      assert lines + [last] == [last] && [last][1..] == [];
      assert Lines([last]) == last + "\n" + "";
      OneMore(last, "");
    } else {
      assert (lines + [last])[1..] == lines[1..] + [last];
      LinesConcat(lines[1..], last);
      OneMore(lines[0], Lines(lines[1..] + [last]));
      OneMore(lines[0], Lines(lines[1..]));
    }
  }

  lemma OneMore(line: string, rest: string)
    ensures Strip(line + "\n" + rest) == Strip(line) + Strip(rest)
  {
    StripConcat(line + "\n", rest);
    StripConcat(line, "\n");
    StripBlank("\n");
  }

  /** The arguments of a declaration, separated by commas and closed by its tail: what the hash sees of them. */
  function Bare(args: seq<string>, tail: string): string {
    if args == [] then [] else Strip(args[0]) + (if |args| == 1 then ")" + Strip(tail) else ",") + Bare(args[1..], tail)
  }

  function JoinArgs(args: seq<string>): string {
    if args == [] then "" else if |args| == 1 then args[0] else args[0] + ", " + JoinArgs(args[1..])
  }

  lemma {:induction false} JoinedBare(args: seq<string>, tail: string)
    requires args != []
    ensures Strip(JoinArgs(args) + ")" + tail) == Bare(args, tail)
    decreases |args|
  {
    if |args| == 1 {
      assert args[1..] == [] && Bare(args[1..], tail) == [];
      StripConcat(args[0] + ")", tail);
      StripConcat(args[0], ")");
      CloseStays();
      Associate(Strip(args[0]), ")", Strip(tail));
    } else {
      JoinedBare(args[1..], tail);
      var rest := JoinArgs(args[1..]) + ")" + tail;
      assert JoinArgs(args) + ")" + tail == args[0] + (", " + rest);
      StripConcat(args[0], ", " + rest);
      StripConcat(", ", rest);
      CommaStays();
      Associate(Strip(args[0]), ",", Strip(rest));
    }
  }

  lemma Associate(a: string, b: string, c: string)
    ensures a + (b + c) == a + b + c && a + (b + c) + [] == a + (b + c)
  {
  }

  lemma CloseStays()
    ensures Strip(")") == ")" && Strip(",") == ","
  {
    assert ")"[1..] == "" && ","[1..] == "";
  }

  lemma CommaStays()
    ensures Strip(", ") == ","
  {
    CloseStays();
    assert ", " == "," + " ";
    StripConcat(",", " ");
    StripBlank(" ");
  }

  function OneLine(prefix: string, args: seq<string>, tail: string, indent: string): string {
    indent + prefix + "(" + JoinArgs(args) + ")" + tail
  }

  function Widest(args: seq<string>): (n: nat)
    ensures forall a :: a in args ==> |a| <= n
    ensures args != [] ==> exists a :: a in args && |a| == n
  {
    if args == [] then 0
    else
      assert args == [args[0]] + args[1..];
      if |args[0]| >= Widest(args[1..]) then |args[0]| else Widest(args[1..])
  }

  /** An argument with what follows it. */
  function PieceOf(args: seq<string>, i: nat, tail: string): string
    requires i < |args|
  {
    args[i] + if i == |args| - 1 then ")" + tail else ","
  }

  /** Arguments from one cut up to the next, as one line has them. */
  function Pieces(args: seq<string>, from: nat, to: nat, tail: string): string
    requires from <= to <= |args|
  {
    if from == to then ""
    else Pieces(args, from, to - 1, tail) + PieceOf(args, to - 1, tail) + if to == |args| then "" else " "
  }

  /** Line k before its trailing blanks are cut: the head or a blank lead, and its arguments. */
  function Whole(head: string, pad: string, args: seq<string>, tail: string, cuts: seq<nat>, k: nat): string
    requires k + 1 < |cuts| && cuts[k] <= cuts[k + 1] <= |args|
  {
    (if k == 0 then head else pad) + Pieces(args, cuts[k], cuts[k + 1], tail)
  }

  predicate Ordered(cuts: seq<nat>, n: nat) {
    |cuts| > 0 && cuts[0] == 0 && cuts[|cuts| - 1] <= n
    && (forall k :: 0 <= k < |cuts| - 1 ==> cuts[k] <= cuts[k + 1])
    && (forall k :: 0 <= k < |cuts| ==> cuts[k] <= n)
  }

  /** Line k is the arguments between two cuts.  It is wider than the limit only if it has just the one thing it starts
    * with, the head or its first argument. */
  predicate LineRight(line: string, head: string, pad: string, args: seq<string>, tail: string, cuts: seq<nat>, k: nat)
    requires Ordered(cuts, |args|) && k + 1 < |cuts|
  {
    && line == RStrip(Whole(head, pad, args, tail, cuts, k))
    && (cuts[k + 1] > cuts[k] + (if k == 0 then 0 else 1) ==> |line| <= LIMIT)
  }

  /** It was broken because the next argument did not fit. */
  predicate BreakNeeded(head: string, pad: string, args: seq<string>, tail: string, cuts: seq<nat>, k: nat)
    requires Ordered(cuts, |args|) && k + 1 < |cuts| && cuts[k + 1] < |args|
  {
    |Whole(head, pad, args, tail, cuts, k)| + |PieceOf(args, cuts[k + 1], tail)| > LIMIT
  }

  /** A declaration broken over as many lines as it needs, and no more. */
  ghost predicate Broken(lines: seq<string>, head: string, pad: string, args: seq<string>, tail: string, cuts: seq<nat>)
  {
    && Ordered(cuts, |args|) && |cuts| == |lines| + 1
    && (forall k :: 0 <= k < |lines| ==> LineRight(lines[k], head, pad, args, tail, cuts, k))
    && (forall k :: 0 <= k < |lines| && cuts[k + 1] < |args| ==> BreakNeeded(head, pad, args, tail, cuts, k))
  }

  const LIMIT := 79

  /** `wrap`: a declaration on one line if it fits in 79 columns, or its arguments broken over as many as they need,
    * under each other where the widest fits there.  Wherever it breaks, the text without whitespace is that of the
    * single line. */
  method Wrap(prefix: string, args: seq<string>, tail: string, indent: string, column: nat)
      returns (lines: seq<string>)
    requires args != []
    ensures Strip(Lines(lines)) == Strip(OneLine(prefix, args, tail, indent))
    ensures |OneLine(prefix, args, tail, indent)| <= LIMIT ==> lines == [OneLine(prefix, args, tail, indent)]
    ensures |OneLine(prefix, args, tail, indent)| > LIMIT ==>
      var pad := Spaces(if exists a :: a in args && column + |a| + 2 > LIMIT then |indent| + 4 else column);
      exists cuts :: Broken(lines, indent + prefix + "(", pad, args, tail, cuts) && cuts[|cuts| - 1] == |args|
  {
    var one := OneLine(prefix, args, tail, indent);
    if |one| <= LIMIT {
      assert [] + [one] == [one];
      LinesConcat([], one);
      return [one];
    }
    var cont := if column + Widest(args) + 2 > LIMIT then |indent| + 4 else column;
    ghost var cuts;
    HeadSeen(indent + prefix);
    lines, cuts := BreakArgs(indent + prefix + "(", Spaces(cont), args, tail);
    JoinedBare(args, tail);
    OneLineBare(prefix, args, tail, indent);
  }

  /** What holds of the finished lines and the one being built, with the arguments before i placed. */
  ghost predicate Ongoing(lines: seq<string>, cur: string, head: string, pad: string, args: seq<string>, tail: string,
                          cuts: seq<nat>, i: nat)
  {
    && i <= |args| && Seen(lines, cur) + Bare(args[i..], tail) == Strip(head) + Bare(args, tail)
    && Broken(lines, head, pad, args, tail, cuts) && cuts[|cuts| - 1] <= i
    && Building(cur, lines == [], if lines == [] then head else pad, args, tail, cuts[|cuts| - 1], i)
  }

  method BreakArgs(head: string, pad: string, args: seq<string>, tail: string)
      returns (lines: seq<string>, ghost cuts: seq<nat>)
    requires Strip(head) != [] && forall k :: 0 <= k < |pad| ==> Space(pad[k])
    ensures Strip(Lines(lines)) == Strip(head) + Bare(args, tail)
    ensures Broken(lines, head, pad, args, tail, cuts) && cuts[|cuts| - 1] == |args|
  {
    lines, cuts := [], [0];
    var cur := head;
    assert args[0..] == args && Seen([], head) == Strip(head);
    for i := 0 to |args|
      invariant Ongoing(lines, cur, head, pad, args, tail, cuts, i)
    {
      var last := i == |args| - 1;
      var piece := args[i] + if last then ")" + tail else ",";
      if Strip(cur) != [] && |cur| + |piece| > LIMIT {
        BreakStep(lines, cur, head, pad, args, tail, cuts, i);
        lines, cuts := lines + [RStrip(cur)], cuts + [i];
        cur := pad;
        StripBlank(pad);
      }
      PieceStep(lines, cur, head, pad, args, tail, cuts, i);
      cur := cur + piece + if last then "" else " ";
    }
    Finish(lines, cur, head, pad, args, tail, cuts);
    lines, cuts := lines + [RStrip(cur)], cuts + [|args|];
  }

  lemma Finish(lines: seq<string>, cur: string, head: string, pad: string, args: seq<string>, tail: string,
               cuts: seq<nat>)
    requires Ongoing(lines, cur, head, pad, args, tail, cuts, |args|)
    ensures Strip(Lines(lines + [RStrip(cur)])) == Strip(head) + Bare(args, tail)
    ensures Broken(lines + [RStrip(cur)], head, pad, args, tail, cuts + [|args|])
  {
    assert Bare(args[|args|..], tail) == [];
    LinesConcat(lines, RStrip(cur));
    BrokenMore(lines, cur, head, pad, args, tail, cuts, |args|);
  }

  lemma BreakStep(lines: seq<string>, cur: string, head: string, pad: string, args: seq<string>, tail: string,
                  cuts: seq<nat>, i: nat)
    requires Ongoing(lines, cur, head, pad, args, tail, cuts, i) && i < |args|
    requires |cur| + |PieceOf(args, i, tail)| > LIMIT && forall k :: 0 <= k < |pad| ==> Space(pad[k])
    ensures Ongoing(lines + [RStrip(cur)], pad, head, pad, args, tail, cuts + [i], i)
  {
    Fresh(pad, args, tail, i);
    Cut(lines, cur, pad);
    BrokenMore(lines, cur, head, pad, args, tail, cuts, i);
    assert lines + [RStrip(cur)] != [] && (cuts + [i])[|cuts|] == i;
  }

  /** A new line, with nothing on it yet. */
  lemma Fresh(pad: string, args: seq<string>, tail: string, i: nat)
    requires i <= |args| && forall k :: 0 <= k < |pad| ==> Space(pad[k])
    ensures Strip(pad) == [] && Building(pad, false, pad, args, tail, i, i)
  {
    StripBlank(pad);
    assert pad + "" == pad;
  }

  lemma PieceStep(lines: seq<string>, cur: string, head: string, pad: string, args: seq<string>, tail: string,
                  cuts: seq<nat>, i: nat)
    requires Ongoing(lines, cur, head, pad, args, tail, cuts, i) && i < |args|
    requires Strip(cur) == [] || |cur| + |PieceOf(args, i, tail)| <= LIMIT
    ensures var next := cur + PieceOf(args, i, tail) + (if i == |args| - 1 then "" else " ");
      Ongoing(lines, next, head, pad, args, tail, cuts, i + 1)
  {
    OnePiece(cur, lines == [], if lines == [] then head else pad, args, tail, cuts[|cuts| - 1], i);
    Piece(args, i, tail);
    Appended(lines, cur, PieceOf(args, i, tail), if i == |args| - 1 then "" else " ", Bare(args[i + 1..], tail));
  }

  /** The line being built, with the arguments from one cut up to i: the first line, with the head, or a later one. */
  predicate Building(cur: string, first: bool, lead: string, args: seq<string>, tail: string, from: nat, i: nat) {
    && from <= i <= |args| && cur == lead + Pieces(args, from, i, tail)
    && (i > from + (if first then 0 else 1) ==> |RStrip(cur)| <= LIMIT)
    && (Strip(cur) == [] ==> !first && i == from)
  }

  /** One more argument on the line, because it fits or nothing else is there. */
  lemma OnePiece(cur: string, first: bool, lead: string, args: seq<string>, tail: string, from: nat, i: nat)
    requires Building(cur, first, lead, args, tail, from, i) && i < |args|
    requires Strip(cur) == [] || |cur| + |PieceOf(args, i, tail)| <= LIMIT
    ensures Building(cur + PieceOf(args, i, tail) + (if i == |args| - 1 then "" else " "),
                     first, lead, args, tail, from, i + 1)
  {
    var piece, gap := PieceOf(args, i, tail), if i == |args| - 1 then "" else " ";
    Grouped(lead, Pieces(args, from, i, tail), piece, gap);
    PieceSeen(args, i, tail);
    NotBlank(cur, piece, gap);
    Width(cur, piece, gap);
  }

  lemma Grouped(a: string, b: string, c: string, d: string)
    ensures a + b + c + d == a + (b + c + d)
  {
  }

  lemma NotBlank(cur: string, piece: string, gap: string)
    requires Strip(piece) != []
    ensures Strip(cur + piece + gap) != []
  {
    StripConcat(cur + piece, gap);
    StripConcat(cur, piece);
  }

  lemma Width(cur: string, piece: string, gap: string)
    requires gap == "" || gap == " "
    ensures |RStrip(cur + piece + gap)| <= |cur| + |piece|
  {
    var next := cur + piece + gap;
    if gap == " " { assert next[|next| - 1] == ' '; }
  }

  lemma PieceSeen(args: seq<string>, i: nat, tail: string)
    requires i < |args|
    ensures Strip(PieceOf(args, i, tail)) != []
  {
    var rest := if i == |args| - 1 then ")" + tail else ",";
    StripConcat(args[i], rest);
    assert !Space(rest[0]);
  }

  /** The line being built is finished at argument i. */
  lemma BrokenMore(lines: seq<string>, cur: string, head: string, pad: string, args: seq<string>, tail: string,
                   cuts: seq<nat>, i: nat)
    requires Broken(lines, head, pad, args, tail, cuts) && cuts[|cuts| - 1] <= i <= |args|
    requires cur == (if lines == [] then head else pad) + Pieces(args, cuts[|cuts| - 1], i, tail)
    requires i > cuts[|cuts| - 1] + (if lines == [] then 0 else 1) ==> |RStrip(cur)| <= LIMIT
    requires i < |args| ==> |cur| + |PieceOf(args, i, tail)| > LIMIT
    ensures Broken(lines + [RStrip(cur)], head, pad, args, tail, cuts + [i])
  {
    var lines', cuts' := lines + [RStrip(cur)], cuts + [i];
    assert Ordered(cuts', |args|);
    forall k | 0 <= k < |lines'| ensures LineRight(lines'[k], head, pad, args, tail, cuts', k) {
      if k < |lines| { assert LineRight(lines[k], head, pad, args, tail, cuts, k); }
    }
    forall k | 0 <= k < |lines'| && cuts'[k + 1] < |args| ensures BreakNeeded(head, pad, args, tail, cuts', k) {
      if k < |lines| { assert BreakNeeded(head, pad, args, tail, cuts, k); }
    }
  }

  lemma HeadSeen(s: string)
    ensures Strip(s + "(") != []
  {
    StripConcat(s, "(");
    assert "("[1..] == "";
  }

  /** What the hash sees of the lines finished so far and the one being built. */
  function Seen(lines: seq<string>, cur: string): string {
    Strip(Lines(lines)) + Strip(cur)
  }

  lemma Cut(lines: seq<string>, cur: string, pad: string)
    requires Strip(pad) == []
    ensures Seen(lines + [RStrip(cur)], pad) == Seen(lines, cur)
  {
    LinesConcat(lines, RStrip(cur));
  }

  lemma Appended(lines: seq<string>, cur: string, piece: string, gap: string, rest: string)
    requires gap == "" || gap == " "
    ensures Seen(lines, cur + piece + gap) + rest == Seen(lines, cur) + (Strip(piece) + rest)
  {
    StripPiece(cur, piece, gap);
  }

  lemma OneLineBare(prefix: string, args: seq<string>, tail: string, indent: string)
    ensures Strip(OneLine(prefix, args, tail, indent)) ==
      Strip(indent + prefix + "(") + Strip(JoinArgs(args) + ")" + tail)
  {
    var head := indent + prefix + "(";
    assert OneLine(prefix, args, tail, indent) == head + (JoinArgs(args) + ")" + tail);
    StripConcat(head, JoinArgs(args) + ")" + tail);
  }

  /** One argument's share of what the hash sees. */
  lemma Piece(args: seq<string>, i: nat, tail: string)
    requires i < |args|
    ensures var last := i == |args| - 1;
      Bare(args[i..], tail) == Strip(args[i] + if last then ")" + tail else ",") + Bare(args[i + 1..], tail)
  {
    assert args[i..][1..] == args[i + 1..];
    CloseStays();
    if i == |args| - 1 {
      StripConcat(args[i], ")" + tail);
      StripConcat(")", tail);
    } else {
      StripConcat(args[i], ",");
    }
  }

  lemma StripPiece(cur: string, piece: string, gap: string)
    requires gap == "" || gap == " "
    ensures Strip(cur + piece + gap) == Strip(cur) + Strip(piece)
  {
    StripConcat(cur + piece, gap);
    StripConcat(cur, piece);
    StripBlank(gap);
  }

  // ---------------------------------------------------------------- the two passes

  predicate OccursAt(text: string, pat: string, i: nat) {
    i + |pat| <= |text| && text[i..i + |pat|] == pat
  }

  /** Python's `str.index`: the first occurrence at or after i, or the text's length where there is none. */
  function IndexFrom(text: string, pat: string, i: nat): (r: nat)
    requires i <= |text|
    ensures i <= r <= |text|
    ensures r < |text| ==> OccursAt(text, pat, r)
    ensures forall j: nat :: i <= j < r ==> !OccursAt(text, pat, j)
    decreases |text| - i
  {
    if i == |text| || OccursAt(text, pat, i) then i else IndexFrom(text, pat, i + 1)
  }

  /** The struct's body as slot_list_text cuts it out: between the opening line and the first closing brace after it. */
  function StructBody(text: string, start: string, end: string): string {
    var from := IndexFrom(text, start, 0) + |start|;
    if from > |text| then "" else text[from..IndexFrom(text, end, from)]
  }

  /** The header: a preamble that names the hash, the struct, and the rest. */
  function Header(preamble: nat -> string, h: nat, start: string, body: string, rest: string): string {
    preamble(h) + start + body + rest
  }

  /** Whatever hash the preamble names, the struct is found right after it. */
  ghost predicate Marked(preamble: nat -> string, start: string, body: string, rest: string) {
    forall h: nat {:trigger MarkedAt(preamble, start, body, rest, h)} :: MarkedAt(preamble, start, body, rest, h)
  }

  predicate MarkedAt(preamble: nat -> string, start: string, body: string, rest: string, h: nat) {
    IndexFrom(Header(preamble, h, start, body, rest), start, 0) == |preamble(h)|
  }

  lemma {:induction false} IndexShift(pre: string, text: string, pat: string, i: nat)
    requires i <= |text|
    ensures IndexFrom(pre + text, pat, |pre| + i) == |pre| + IndexFrom(text, pat, i)
    decreases |text| - i
  {
    assert OccursAt(pre + text, pat, |pre| + i) <==> OccursAt(text, pat, i) by {
      if i + |pat| <= |text| {
        assert (pre + text)[|pre| + i..|pre| + i + |pat|] == text[i..i + |pat|];
      }
    }
    if i < |text| && !OccursAt(text, pat, i) { IndexShift(pre, text, pat, i + 1); }
  }

  /** The text that is hashed does not depend on the hash already written into the header. */
  lemma BodyIndependent(preamble: nat -> string, h: nat, start: string, body: string, rest: string, end: string)
    requires Marked(preamble, start, body, rest)
    ensures StructBody(Header(preamble, h, start, body, rest), start, end) ==
            (body + rest)[..IndexFrom(body + rest, end, 0)]
  {
    assert MarkedAt(preamble, start, body, rest, h);
    var pre := preamble(h) + start;
    Regroup(pre, body, rest);
    AfterStart(pre, start, body + rest, end, Header(preamble, h, start, body, rest));
  }

  lemma Regroup(a: string, b: string, c: string)
    ensures a + b + c == a + (b + c)
  {
  }

  lemma AfterStart(pre: string, start: string, tail: string, end: string, text: string)
    requires text == pre + tail && |start| <= |pre| && IndexFrom(text, start, 0) == |pre| - |start|
    ensures StructBody(text, start, end) == tail[..IndexFrom(tail, end, 0)]
  {
    IndexShift(pre, tail, end, 0);
    Middle(pre, tail, IndexFrom(tail, end, 0));
  }

  lemma Middle(pre: string, tail: string, k: nat)
    requires k <= |tail|
    ensures (pre + tail)[|pre|..|pre| + k] == tail[..k]
  {
  }

  type Digest = string -> nat

  /** emit_vtable_h: the header is built once with a zero, hashed, and built again with the hash. */
  method EmitHeader(preamble: nat -> string, start: string, body: string, rest: string, end: string, digest: Digest)
      returns (header: string, value: nat)
    requires Marked(preamble, start, body, rest)
    ensures header == Header(preamble, value, start, body, rest)
    ensures value == digest(StructBody(header, start, end))
  {
    var first := Header(preamble, 0, start, body, rest);
    value := digest(StructBody(first, start, end));
    header := Header(preamble, value, start, body, rest);
    BodyIndependent(preamble, 0, start, body, rest, end);
    BodyIndependent(preamble, value, start, body, rest, end);
  }
}

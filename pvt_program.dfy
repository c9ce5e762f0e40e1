/**
 * The PVT motion program the arm branch downloads to the DMC-4060: a
 * `#PVT` label, one group of `PVA`..`PVE` assignments per waypoint (the
 * first with the time code 128), a group of zeros, and an epilogue that
 * starts the axes, waits for motion to complete and reports "DONE".
 *
 * `Encode` is the text as a function of the compiled matrices,
 * `BuildProgram` the row-by-row construction of it, and `Decode` a reader
 * of the dialect that recovers the assignments (`DecodeEncode`).
 */
module PvtProgram {
  import opened Wrappers
  import opened Decimal
  import opened PvtReader

  /** `pvt_cmd_head`: the PVT register of each axis A..E. */
  const Heads: seq<string> := ["PVA", "PVB", "PVC", "PVD", "PVE"]
  const ProgramLabel: string := "#PVT\n"
  const TimeCode: int := 128
  /** The all-zero row that closes the PVT segment list. */
  const ZeroRow: string := "PVA=0,0,0;" + "PVB=0,0,0;" + "PVC=0,0,0;" + "PVD=0,0,0;" + "PVE=0,0,0\n"
  /** Begin PVT motion on A..E, wait for motion complete, send "DONE", end the program. */
  const Epilogue: string := "BTABCDE\nMC\nMG \"DONE\" \nEN\n"

  /** A compiled matrix: one row of five integers per waypoint. */
  predicate IsMatrix(m: seq<seq<int>>)
  {
    forall i :: 0 <= i < |m| ==> |m[i]| == 5
  }

  /** Step and velocity matrices of the same, non-zero, number of rows. */
  predicate Compiled(pos: seq<seq<int>>, vel: seq<seq<int>>)
  {
    |pos| == |vel| >= 1 && IsMatrix(pos) && IsMatrix(vel)
  }

  /** `PVx=<steps>,<velocity>` for axis `a`. */
  function Field(a: nat, s: int, v: int): string
    requires a < 5
  {
    Heads[a] + "=" + IntToString(s) + "," + IntToString(v)
  }

  /** Row 0: every assignment carries the time code 128; lines hold two, two and one assignment. */
  function FirstRowText(s: seq<int>, v: seq<int>): string
    requires |s| == 5 && |v| == 5
  {
    Field(0, s[0], v[0]) + ",128;" + Field(1, s[1], v[1]) + ",128\n" +
    Field(2, s[2], v[2]) + ",128;" + Field(3, s[3], v[3]) + ",128\n" +
    Field(4, s[4], v[4]) + ",128\n"
  }

  /** A later row: no time code; lines hold three and two assignments. */
  function RowText(s: seq<int>, v: seq<int>): string
    requires |s| == 5 && |v| == 5
  {
    Field(0, s[0], v[0]) + ";" + Field(1, s[1], v[1]) + ";" + Field(2, s[2], v[2]) + "\n" +
    Field(3, s[3], v[3]) + ";" + Field(4, s[4], v[4]) + "\n"
  }

  /** Rows 1 .. k-1, in order. */
  function LaterRowsText(pos: seq<seq<int>>, vel: seq<seq<int>>, k: nat): string
    requires Compiled(pos, vel) && 1 <= k <= |pos|
    decreases k
  {
    if k == 1 then "" else LaterRowsText(pos, vel, k - 1) + RowText(pos[k - 1], vel[k - 1])
  }

  /** The whole program text for compiled step and velocity matrices. */
  function Encode(pos: seq<seq<int>>, vel: seq<seq<int>>): (text: string)
    requires Compiled(pos, vel)
    ensures |text| >= |ProgramLabel| + |ZeroRow| + |Epilogue|
    ensures text[..|ProgramLabel|] == ProgramLabel
    ensures text[|text| - |Epilogue|..] == Epilogue
  {
    Framed(ProgramLabel, FirstRowText(pos[0], vel[0]), LaterRowsText(pos, vel, |pos|), ZeroRow, Epilogue);
    ProgramLabel + FirstRowText(pos[0], vel[0]) + LaterRowsText(pos, vel, |pos|) + ZeroRow + Epilogue
  }

  /** Five pieces written one after the other start with the first and end with the last. */
  lemma Framed(a: string, b: string, c: string, d: string, e: string)
    ensures |a + b + c + d + e| >= |a| + |d| + |e|
    ensures (a + b + c + d + e)[..|a|] == a
    ensures (a + b + c + d + e)[|a + b + c + d + e| - |e|..] == e
  {
    var x := a + b + c + d;
    assert x[..|a|] == a;
    assert (x + e)[..|a|] == x[..|a|];
    assert (x + e)[|x|..] == e;
  }

  /** The rows of a two-dimensional array, as a matrix value. */
  function Rows(a: array2<int>): (m: seq<seq<int>>)
    reads a
    ensures |m| == a.Length0
    ensures forall i, j :: 0 <= i < a.Length0 && 0 <= j < a.Length1 ==> |m[i]| == a.Length1 && m[i][j] == a[i, j]
  {
    seq(a.Length0, i requires 0 <= i < a.Length0 reads a =>
      seq(a.Length1, j requires 0 <= j < a.Length1 reads a => a[i, j]))
  }

  /** Writes row 0 of the matrices to the stream `pvt`, each assignment followed by the time code. */
  method WriteFirstRow(pvt: string, relativePosSteps: array2<int>, velSteps: array2<int>) returns (out: string)
    requires relativePosSteps.Length0 == velSteps.Length0 >= 1
    requires relativePosSteps.Length1 == velSteps.Length1 == 5
    ensures out == pvt + FirstRowText(Rows(relativePosSteps)[0], Rows(velSteps)[0])
  {
    ghost var pos, vel := Rows(relativePosSteps), Rows(velSteps);
    out := pvt + Field(0, relativePosSteps[0, 0], velSteps[0, 0]) + ",128;";
    ghost var row := Field(0, pos[0][0], vel[0][0]) + ",128;";
    assert out == pvt + row;
    AppendPieces(pvt, row, Field(1, pos[0][1], vel[0][1]), ",128\n");
    out := out + Field(1, relativePosSteps[0, 1], velSteps[0, 1]) + ",128\n";
    row := row + Field(1, pos[0][1], vel[0][1]) + ",128\n";
    AppendPieces(pvt, row, Field(2, pos[0][2], vel[0][2]), ",128;");
    out := out + Field(2, relativePosSteps[0, 2], velSteps[0, 2]) + ",128;";
    row := row + Field(2, pos[0][2], vel[0][2]) + ",128;";
    AppendPieces(pvt, row, Field(3, pos[0][3], vel[0][3]), ",128\n");
    out := out + Field(3, relativePosSteps[0, 3], velSteps[0, 3]) + ",128\n";
    row := row + Field(3, pos[0][3], vel[0][3]) + ",128\n";
    AppendPieces(pvt, row, Field(4, pos[0][4], vel[0][4]), ",128\n");
    out := out + Field(4, relativePosSteps[0, 4], velSteps[0, 4]) + ",128\n";
    row := row + Field(4, pos[0][4], vel[0][4]) + ",128\n";
    assert row == FirstRowText(pos[0], vel[0]);
  }

  /** Writes row `i` of the matrices to the stream `pvt`, without time codes. */
  method WriteRow(pvt: string, relativePosSteps: array2<int>, velSteps: array2<int>, i: nat) returns (out: string)
    requires i < relativePosSteps.Length0 == velSteps.Length0
    requires relativePosSteps.Length1 == velSteps.Length1 == 5
    ensures out == pvt + RowText(Rows(relativePosSteps)[i], Rows(velSteps)[i])
  {
    ghost var pos, vel := Rows(relativePosSteps), Rows(velSteps);
    out := pvt + Field(0, relativePosSteps[i, 0], velSteps[i, 0]) + ";";
    ghost var row := Field(0, pos[i][0], vel[i][0]) + ";";
    assert out == pvt + row;
    AppendPieces(pvt, row, Field(1, pos[i][1], vel[i][1]), ";");
    out := out + Field(1, relativePosSteps[i, 1], velSteps[i, 1]) + ";";
    row := row + Field(1, pos[i][1], vel[i][1]) + ";";
    AppendPieces(pvt, row, Field(2, pos[i][2], vel[i][2]), "\n");
    out := out + Field(2, relativePosSteps[i, 2], velSteps[i, 2]) + "\n";
    row := row + Field(2, pos[i][2], vel[i][2]) + "\n";
    AppendPieces(pvt, row, Field(3, pos[i][3], vel[i][3]), ";");
    out := out + Field(3, relativePosSteps[i, 3], velSteps[i, 3]) + ";";
    row := row + Field(3, pos[i][3], vel[i][3]) + ";";
    AppendPieces(pvt, row, Field(4, pos[i][4], vel[i][4]), "\n");
    out := out + Field(4, relativePosSteps[i, 4], velSteps[i, 4]) + "\n";
    row := row + Field(4, pos[i][4], vel[i][4]) + "\n";
    assert row == RowText(pos[i], vel[i]);
  }

  /**
   * Builds the program text as the stream is written: the label, row 0 with
   * its time codes, each later row, the zero row and the epilogue.
   */
  method BuildProgram(relativePosSteps: array2<int>, velSteps: array2<int>) returns (pvt: string)
    requires relativePosSteps.Length0 == velSteps.Length0 >= 1
    requires relativePosSteps.Length1 == velSteps.Length1 == 5
    ensures pvt == Encode(Rows(relativePosSteps), Rows(velSteps))
  {
    ghost var pos, vel := Rows(relativePosSteps), Rows(velSteps);
    assert Compiled(pos, vel);
    ghost var head := ProgramLabel + FirstRowText(pos[0], vel[0]);
    var nPoints := relativePosSteps.Length0;
    pvt := ProgramLabel;
    pvt := WriteFirstRow(pvt, relativePosSteps, velSteps);
    for i := 1 to nPoints
      invariant pvt == head + LaterRowsText(pos, vel, i)
    {
      Concat3(head, LaterRowsText(pos, vel, i), RowText(pos[i], vel[i]));
      pvt := WriteRow(pvt, relativePosSteps, velSteps, i);
    }
    pvt := pvt + ZeroRow;
    pvt := pvt + Epilogue;
  }

  lemma AppendPieces(prefix: string, done: string, field: string, sep: string)
    ensures prefix + done + field + sep == prefix + (done + field + sep)
  {
  }

  /** Reads a whole PVT program: the label, the assignments, then exactly the epilogue. */
  function Decode(text: string): Option<seq<Assignment>>
  {
    if |text| >= |ProgramLabel| && text[..|ProgramLabel|] == ProgramLabel then
      match ParseAssignments(text[|ProgramLabel|..])
      case None => None
      case Some((assignments, rest)) => if rest == Epilogue then Some(assignments) else None
    else None
  }

  /**
   * The assignments a compiled trajectory stands for: a group of five, PVA
   * to PVE, per waypoint, holding its steps and velocity, only the first
   * group with the time code 128; then a closing group of zeros.
   */
  function Segments(pos: seq<seq<int>>, vel: seq<seq<int>>): seq<Assignment>
    requires Compiled(pos, vel)
  {
    seq(5 * (|pos| + 1), k requires 0 <= k < 5 * (|pos| + 1) =>
      var g, a := k / 5, k % 5;
      Assignment(Heads[a], if g == 0 then [pos[0][a], vel[0][a], TimeCode]
                           else if g < |pos| then [pos[g][a], vel[g][a]]
                           else [0, 0, 0]))
  }

  /**
   * The shape of a program: one group of five assignments, `PVA` to `PVE`,
   * per waypoint plus the closing group, and only the first group carries
   * the time code as a third value.
   */
  lemma SegmentsLayout(pos: seq<seq<int>>, vel: seq<seq<int>>)
    requires Compiled(pos, vel)
    ensures |Segments(pos, vel)| == 5 * (|pos| + 1)
    ensures forall k :: 0 <= k < |Segments(pos, vel)| ==> Segments(pos, vel)[k].register == Heads[k % 5]
    ensures forall k :: 0 <= k < |Segments(pos, vel)| ==>
      (|Segments(pos, vel)[k].values| == 3 && Segments(pos, vel)[k].values[2] == TimeCode <==> k < 5)
  {
  }

  /** The program text determines the assignments it was built from. */
  lemma DecodeEncode(pos: seq<seq<int>>, vel: seq<seq<int>>)
    requires Compiled(pos, vel)
    ensures Decode(Encode(pos, vel)) == Some(Segments(pos, vel))
  {
    var z := [0, 0, 0, 0, 0];
    var first, later := FirstRowText(pos[0], vel[0]), LaterRowsText(pos, vel, |pos|);
    var s0, s1, s2 := RowSegments(pos[0], vel[0], [TimeCode]), LaterSegments(pos, vel, |pos|), RowSegments(z, z, [0]);
    ParseFirstRow(pos[0], vel[0]);
    ParseLaterRows(pos, vel, |pos|);
    ParseZeroRow();
    ReadsConcat(first, s0, later, s1);
    ReadsConcat(first + later, s0 + s1, ZeroRow, s2);
    DecodeProgram(first + later + ZeroRow, s0 + s1 + s2);
    Concat3(ProgramLabel + first, later, ZeroRow);
    Concat3(ProgramLabel, first, later);
    Concat3(ProgramLabel, first + later, ZeroRow);
    assert Encode(pos, vel) == ProgramLabel + (first + later + ZeroRow) + Epilogue;
    SegmentsSplit(pos, vel);
  }

  /** A label, a body that reads as `segs`, then the epilogue: the program decodes to `segs`. */
  lemma DecodeProgram(body: string, segs: seq<Assignment>)
    requires Reads(body, segs)
    ensures Decode(ProgramLabel + body + Epilogue) == Some(segs)
  {
    var text := ProgramLabel + body + Epilogue;
    Concat3(ProgramLabel, body, Epilogue);
    assert text[..|ProgramLabel|] == ProgramLabel;
    assert text[|ProgramLabel|..] == body + Epilogue;
    ReadsAt(body, segs, Epilogue);
    assert Epilogue[..2] == "BT";
    assert ParseAssignments(Epilogue) == Some(([], Epilogue));
    assert segs + [] == segs;
  }

  /** The first row's group, the later rows' groups and the closing group make up `Segments`. */
  lemma SegmentsSplit(pos: seq<seq<int>>, vel: seq<seq<int>>)
    requires Compiled(pos, vel)
    ensures RowSegments(pos[0], vel[0], [TimeCode]) + LaterSegments(pos, vel, |pos|) +
      RowSegments([0, 0, 0, 0, 0], [0, 0, 0, 0, 0], [0]) == Segments(pos, vel)
  {
    var n, z := |pos|, [0, 0, 0, 0, 0];
    var parts := RowSegments(pos[0], vel[0], [TimeCode]) + LaterSegments(pos, vel, n) + RowSegments(z, z, [0]);
    LaterSegmentsLength(pos, vel, n);
    forall m | 0 <= m < 5 * (n + 1)
      ensures parts[m] == Segments(pos, vel)[m]
    {
      var g, a := m / 5, m % 5;
      assert m == 5 * g + a;
      SegmentsSplitAt(pos, vel, g, a);
    }
  }

  /** Assignment `a` of group `g` is the same in the three parts and in `Segments`. */
  lemma SegmentsSplitAt(pos: seq<seq<int>>, vel: seq<seq<int>>, g: nat, a: nat)
    requires Compiled(pos, vel) && g <= |pos| && a < 5
    ensures 5 * g + a < 5 * (|pos| + 1) && |LaterSegments(pos, vel, |pos|)| == 5 * (|pos| - 1)
    ensures (RowSegments(pos[0], vel[0], [TimeCode]) + LaterSegments(pos, vel, |pos|) +
      RowSegments([0, 0, 0, 0, 0], [0, 0, 0, 0, 0], [0]))[5 * g + a] == Segments(pos, vel)[5 * g + a]
  {
    var n, z := |pos|, [0, 0, 0, 0, 0];
    var s0, s1, s2 := RowSegments(pos[0], vel[0], [TimeCode]), LaterSegments(pos, vel, n), RowSegments(z, z, [0]);
    LaterSegmentsLength(pos, vel, n);
    SegmentAt(pos, vel, g, a);
    At3(s0, s1, s2, 5 * g + a);
    if 1 <= g < n {
      LaterSegmentAt(pos, vel, n, g, a);
    }
  }

  /** Indexing into three concatenated sequences. */
  lemma At3<T>(s0: seq<T>, s1: seq<T>, s2: seq<T>, m: int)
    requires 0 <= m < |s0| + |s1| + |s2|
    ensures (s0 + s1 + s2)[m] ==
      if m < |s0| then s0[m] else if m < |s0| + |s1| then s1[m - |s0|] else s2[m - |s0| - |s1|]
  {
  }

  lemma {:induction false} LaterSegmentsLength(pos: seq<seq<int>>, vel: seq<seq<int>>, k: nat)
    requires Compiled(pos, vel) && 1 <= k <= |pos|
    ensures |LaterSegments(pos, vel, k)| == 5 * (k - 1)
    decreases k
  {
    if k > 1 {
      LaterSegmentsLength(pos, vel, k - 1);
    }
  }

  /** Assignment `a` of later row `g`, read off the later groups. */
  lemma LaterSegmentAt(pos: seq<seq<int>>, vel: seq<seq<int>>, k: nat, g: nat, a: nat)
    requires Compiled(pos, vel) && 1 <= g < k <= |pos| && a < 5
    ensures 5 * (g - 1) + a < |LaterSegments(pos, vel, k)|
    ensures LaterSegments(pos, vel, k)[5 * (g - 1) + a] == Assignment(Heads[a], [pos[g][a], vel[g][a]])
  {
    LaterSegmentsAt(pos, vel, k);
    var m := 5 * (g - 1) + a;
    assert m / 5 == g - 1 && m % 5 == a;
  }

  /** Assignment `a` of group `g`: the waypoint's steps and velocity, with the time code in group 0, zeros at the end. */
  lemma SegmentAt(pos: seq<seq<int>>, vel: seq<seq<int>>, g: nat, a: nat)
    requires Compiled(pos, vel) && g <= |pos| && a < 5
    ensures 5 * g + a < |Segments(pos, vel)|
    ensures Segments(pos, vel)[5 * g + a] ==
      Assignment(Heads[a], if g == 0 then [pos[0][a], vel[0][a], TimeCode]
                           else if g < |pos| then [pos[g][a], vel[g][a]]
                           else [0, 0, 0])
  {
    assert (5 * g + a) / 5 == g && (5 * g + a) % 5 == a;
  }

  /** The program text determines the compiled matrices: different matrices give different programs. */
  lemma EncodeInjective(pos: seq<seq<int>>, vel: seq<seq<int>>, pos': seq<seq<int>>, vel': seq<seq<int>>)
    requires Compiled(pos, vel) && Compiled(pos', vel')
    requires Encode(pos, vel) == Encode(pos', vel')
    ensures pos == pos' && vel == vel'
  {
    DecodeEncode(pos, vel);
    DecodeEncode(pos', vel');
    SegmentsInjective(pos, vel, pos', vel');
  }

  /** The assignments determine the compiled matrices they stand for. */
  lemma SegmentsInjective(pos: seq<seq<int>>, vel: seq<seq<int>>, pos': seq<seq<int>>, vel': seq<seq<int>>)
    requires Compiled(pos, vel) && Compiled(pos', vel')
    requires Segments(pos, vel) == Segments(pos', vel')
    ensures pos == pos' && vel == vel'
  {
    var segs, segs' := Segments(pos, vel), Segments(pos', vel');
    assert |segs| == 5 * (|pos| + 1) && |segs'| == 5 * (|pos'| + 1);
    forall i | 0 <= i < |pos|
      ensures pos[i] == pos'[i] && vel[i] == vel'[i]
    {
      forall a | 0 <= a < 5
        ensures pos[i][a] == pos'[i][a] && vel[i][a] == vel'[i][a]
      {
        assert (5 * i + a) / 5 == i && (5 * i + a) % 5 == a;
        assert segs[5 * i + a].values == segs'[5 * i + a].values;
      }
    }
  }

  /** The group of five assignments one row stands for. */
  function RowSegments(s: seq<int>, v: seq<int>, timeCode: seq<int>): (row: seq<Assignment>)
    requires |s| == 5 && |v| == 5
    ensures |row| == 5 && forall a :: 0 <= a < 5 ==> row[a] == Assignment(Heads[a], [s[a], v[a]] + timeCode)
  {
    [Assignment(Heads[0], [s[0], v[0]] + timeCode), Assignment(Heads[1], [s[1], v[1]] + timeCode),
     Assignment(Heads[2], [s[2], v[2]] + timeCode), Assignment(Heads[3], [s[3], v[3]] + timeCode),
     Assignment(Heads[4], [s[4], v[4]] + timeCode)]
  }

  /** The groups rows 1 .. k-1 stand for, in order. */
  function LaterSegments(pos: seq<seq<int>>, vel: seq<seq<int>>, k: nat): seq<Assignment>
    requires Compiled(pos, vel) && 1 <= k <= |pos|
    decreases k
  {
    if k == 1 then [] else LaterSegments(pos, vel, k - 1) + RowSegments(pos[k - 1], vel[k - 1], [])
  }

  lemma IntToString128()
    ensures IntToString(128) == "128"
  {
    assert NatToString(1) == "1";
    assert NatToString(12) == NatToString(1) + [DigitChar(2)];
    assert NatToString(128) == NatToString(12) + [DigitChar(8)];
  }

  /** One `PVx=s,v[,extra]` field followed by its separator, read off the front of the text. */
  lemma ParseField(a: nat, s: int, v: int, extra: seq<int>, sepText: string, rest: string)
    requires a < 5 && |extra| <= 1
    requires |sepText| >= 1 && (sepText[|sepText| - 1] == ';' || sepText[|sepText| - 1] == '\n')
    requires sepText[..|sepText| - 1] == if extra == [] then "" else "," + IntToString(extra[0])
    ensures ParseAssignments(Field(a, s, v) + (sepText + rest)) ==
      Prefixed([Assignment(Heads[a], [s, v] + extra)], ParseAssignments(rest))
  {
    var sep := sepText[|sepText| - 1];
    var ext := sepText[..|sepText| - 1];
    var asg := Assignment(Heads[a], [s, v] + extra);
    assert sepText == ext + [sep];
    assert Heads[a][..2] == "PV" && |Heads[a]| == 3;
    if extra == [] {
      assert [s, v] + extra == [s, v];
      FieldRendersPair(a, s, v);
      assert Field(a, s, v) + ext == Render(asg);
    } else {
      assert [s, v] + extra == [s, v, extra[0]];
      FieldRendersTriple(a, s, v, extra[0]);
    }
    Concat3(Field(a, s, v), ext + [sep], rest);
    Concat3(Field(a, s, v), ext, [sep]);
    Concat3(Field(a, s, v) + ext, [sep], rest);
    ParseRendered(asg, sep, rest);
  }

  /** A field without time code is the rendering of its two values. */
  lemma FieldRendersPair(a: nat, s: int, v: int)
    requires a < 5
    ensures Field(a, s, v) == Render(Assignment(Heads[a], [s, v]))
  {
    assert [s, v][1..] == [v];
    assert JoinValues([s, v]) == IntToString(s) + ("," + IntToString(v));
    Concat3(Heads[a] + "=" + IntToString(s), ",", IntToString(v));
    Concat3(Heads[a] + "=", IntToString(s), "," + IntToString(v));
  }

  /** A field followed by `,x` is the rendering of its three values. */
  lemma FieldRendersTriple(a: nat, s: int, v: int, x: int)
    requires a < 5
    ensures Field(a, s, v) + ("," + IntToString(x)) == Render(Assignment(Heads[a], [s, v, x]))
  {
    var p, tail := Heads[a] + "=" + IntToString(s), "," + IntToString(x);
    assert [s, v, x][1..] == [v, x] && [v, x][1..] == [x];
    assert JoinValues([v, x]) == IntToString(v) + tail;
    Concat3(p, ",", IntToString(v));
    Concat3(p, "," + IntToString(v), tail);
    Concat3(",", IntToString(v), tail);
    Concat3(Heads[a] + "=", IntToString(s), "," + (IntToString(v) + tail));
  }

  lemma ParseFirstRow(s: seq<int>, v: seq<int>)
    requires |s| == 5 && |v| == 5
    ensures Reads(FirstRowText(s, v), RowSegments(s, v, [TimeCode]))
  {
    forall rest: string
      ensures ParseAssignments(FirstRowText(s, v) + rest) == Prefixed(RowSegments(s, v, [TimeCode]), ParseAssignments(rest))
    {
      ParseFirstRowAt(s, v, rest);
    }
  }

  /** The two separators of row 0: the time code, then `;` or a newline. */
  lemma TimeCodeSeparators()
    ensures ",128;"[..|",128;"| - 1] == "," + IntToString(TimeCode) && ",128;"[|",128;"| - 1] == ';'
    ensures ",128\n"[..|",128\n"| - 1] == "," + IntToString(TimeCode) && ",128\n"[|",128\n"| - 1] == '\n'
  {
    IntToString128();
  }

  lemma ParseFirstRowAt(s: seq<int>, v: seq<int>, rest: string)
    requires |s| == 5 && |v| == 5
    ensures ParseAssignments(FirstRowText(s, v) + rest) == Prefixed(RowSegments(s, v, [TimeCode]), ParseAssignments(rest))
  {
    TimeCodeSeparators();
    var r4 := Field(4, s[4], v[4]) + (",128\n" + rest);
    var r3 := Field(3, s[3], v[3]) + (",128\n" + r4);
    var r2 := Field(2, s[2], v[2]) + (",128;" + r3);
    var r1 := Field(1, s[1], v[1]) + (",128\n" + r2);
    var r0 := Field(0, s[0], v[0]) + (",128;" + r1);
    ParseField(4, s[4], v[4], [TimeCode], ",128\n", rest);
    ParseField(3, s[3], v[3], [TimeCode], ",128\n", r4);
    ParseField(2, s[2], v[2], [TimeCode], ",128;", r3);
    ParseField(1, s[1], v[1], [TimeCode], ",128\n", r2);
    ParseField(0, s[0], v[0], [TimeCode], ",128;", r1);
    AssociateRow(Field(0, s[0], v[0]), ",128;", Field(1, s[1], v[1]), ",128\n", Field(2, s[2], v[2]), ",128;",
      Field(3, s[3], v[3]), ",128\n", Field(4, s[4], v[4]), ",128\n", rest);
    assert FirstRowText(s, v) + rest == r0;
    GatherRow(RowSegments(s, v, [TimeCode]), ParseAssignments(r0), ParseAssignments(r1), ParseAssignments(r2),
      ParseAssignments(r3), ParseAssignments(r4), ParseAssignments(rest));
  }

  lemma ParseRow(s: seq<int>, v: seq<int>)
    requires |s| == 5 && |v| == 5
    ensures Reads(RowText(s, v), RowSegments(s, v, []))
  {
    forall rest: string
      ensures ParseAssignments(RowText(s, v) + rest) == Prefixed(RowSegments(s, v, []), ParseAssignments(rest))
    {
      var r4 := Field(4, s[4], v[4]) + ("\n" + rest);
      var r3 := Field(3, s[3], v[3]) + (";" + r4);
      var r2 := Field(2, s[2], v[2]) + ("\n" + r3);
      var r1 := Field(1, s[1], v[1]) + (";" + r2);
      var r0 := Field(0, s[0], v[0]) + (";" + r1);
      ParseField(4, s[4], v[4], [], "\n", rest);
      ParseField(3, s[3], v[3], [], ";", r4);
      ParseField(2, s[2], v[2], [], "\n", r3);
      ParseField(1, s[1], v[1], [], ";", r2);
      ParseField(0, s[0], v[0], [], ";", r1);
      AssociateRow(Field(0, s[0], v[0]), ";", Field(1, s[1], v[1]), ";", Field(2, s[2], v[2]), "\n",
        Field(3, s[3], v[3]), ";", Field(4, s[4], v[4]), "\n", rest);
      assert RowText(s, v) + rest == r0;
      GatherRow(RowSegments(s, v, []), ParseAssignments(r0), ParseAssignments(r1), ParseAssignments(r2),
        ParseAssignments(r3), ParseAssignments(r4), ParseAssignments(rest));
    }
  }

  lemma ParseZeroRow()
    ensures Reads(ZeroRow, RowSegments([0, 0, 0, 0, 0], [0, 0, 0, 0, 0], [0]))
  {
    forall rest: string
      ensures ParseAssignments(ZeroRow + rest) == Prefixed(RowSegments([0, 0, 0, 0, 0], [0, 0, 0, 0, 0], [0]), ParseAssignments(rest))
    {
      assert IntToString(0) == "0";
      var z := [0, 0, 0, 0, 0];
      assert "PVA=0,0,0;" == Field(0, 0, 0) + ",0;";
      assert "PVB=0,0,0;" == Field(1, 0, 0) + ",0;";
      assert "PVC=0,0,0;" == Field(2, 0, 0) + ",0;";
      assert "PVD=0,0,0;" == Field(3, 0, 0) + ",0;";
      assert "PVE=0,0,0\n" == Field(4, 0, 0) + ",0\n";
      var r4 := Field(4, 0, 0) + (",0\n" + rest);
      var r3 := Field(3, 0, 0) + (",0;" + r4);
      var r2 := Field(2, 0, 0) + (",0;" + r3);
      var r1 := Field(1, 0, 0) + (",0;" + r2);
      var r0 := Field(0, 0, 0) + (",0;" + r1);
      ParseField(4, 0, 0, [0], ",0\n", rest);
      ParseField(3, 0, 0, [0], ",0;", r4);
      ParseField(2, 0, 0, [0], ",0;", r3);
      ParseField(1, 0, 0, [0], ",0;", r2);
      ParseField(0, 0, 0, [0], ",0;", r1);
      Concat3(Field(0, 0, 0), ",0;", r1);
      Concat3(Field(1, 0, 0), ",0;", r2);
      Concat3(Field(2, 0, 0), ",0;", r3);
      Concat3(Field(3, 0, 0), ",0;", r4);
      Concat3(Field(4, 0, 0), ",0\n", rest);
      Concat3("PVA=0,0,0;" + "PVB=0,0,0;" + "PVC=0,0,0;" + "PVD=0,0,0;", "PVE=0,0,0\n", rest);
      Concat3("PVA=0,0,0;" + "PVB=0,0,0;" + "PVC=0,0,0;", "PVD=0,0,0;", "PVE=0,0,0\n" + rest);
      Concat3("PVA=0,0,0;" + "PVB=0,0,0;", "PVC=0,0,0;", "PVD=0,0,0;" + ("PVE=0,0,0\n" + rest));
      Concat3("PVA=0,0,0;", "PVB=0,0,0;", "PVC=0,0,0;" + ("PVD=0,0,0;" + ("PVE=0,0,0\n" + rest)));
      assert ZeroRow + rest == r0;
      GatherRow(RowSegments(z, z, [0]), ParseAssignments(r0), ParseAssignments(r1), ParseAssignments(r2),
        ParseAssignments(r3), ParseAssignments(r4), ParseAssignments(rest));
    }
  }

  /** The later rows read as their groups of assignments, in order. */
  lemma {:induction false} ParseLaterRows(pos: seq<seq<int>>, vel: seq<seq<int>>, k: nat)
    requires Compiled(pos, vel) && 1 <= k <= |pos|
    ensures Reads(LaterRowsText(pos, vel, k), LaterSegments(pos, vel, k))
    decreases k
  {
    if k > 1 {
      ParseLaterRows(pos, vel, k - 1);
    }
    ReadsUpToRow(pos, vel, k);
  }

  /** No later rows read as nothing; and if rows 1 .. k-2 read as their groups, so do rows 1 .. k-1. */
  lemma ReadsUpToRow(pos: seq<seq<int>>, vel: seq<seq<int>>, k: nat)
    requires Compiled(pos, vel) && 1 <= k <= |pos|
    requires k == 1 || Reads(LaterRowsText(pos, vel, k - 1), LaterSegments(pos, vel, k - 1))
    ensures Reads(LaterRowsText(pos, vel, k), LaterSegments(pos, vel, k))
  {
    if k == 1 {
      ReadsEmpty();
    } else {
      var row, rowSegs := RowText(pos[k - 1], vel[k - 1]), RowSegments(pos[k - 1], vel[k - 1], []);
      ParseRow(pos[k - 1], vel[k - 1]);
      ReadsConcat(LaterRowsText(pos, vel, k - 1), LaterSegments(pos, vel, k - 1), row, rowSegs);
    }
  }

  /** The groups of the later rows, one assignment at a time. */
  lemma {:induction false} LaterSegmentsAt(pos: seq<seq<int>>, vel: seq<seq<int>>, k: nat)
    requires Compiled(pos, vel) && 1 <= k <= |pos|
    ensures |LaterSegments(pos, vel, k)| == 5 * (k - 1)
    ensures forall m :: 0 <= m < 5 * (k - 1) ==>
      LaterSegments(pos, vel, k)[m] == Assignment(Heads[m % 5], [pos[1 + m / 5][m % 5], vel[1 + m / 5][m % 5]])
    decreases k
  {
    if k > 1 {
      LaterSegmentsAt(pos, vel, k - 1);
      var front, last := LaterSegments(pos, vel, k - 1), RowSegments(pos[k - 1], vel[k - 1], []);
      forall m | 0 <= m < 5 * (k - 1)
        ensures (front + last)[m] == Assignment(Heads[m % 5], [pos[1 + m / 5][m % 5], vel[1 + m / 5][m % 5]])
      {
        if m < 5 * (k - 2) {
          assert (front + last)[m] == front[m];
        } else {
          var a := m - 5 * (k - 2);
          assert m / 5 == k - 2 && m % 5 == a;
          assert (front + last)[m] == last[a];
          assert [pos[k - 1][a], vel[k - 1][a]] + [] == [pos[k - 1][a], vel[k - 1][a]];
        }
      }
    }
  }

  /** Re-brackets the ten pieces of a row, field and separator alternately, to the right. */
  lemma AssociateRow(f0: string, t0: string, f1: string, t1: string, f2: string, t2: string,
                     f3: string, t3: string, f4: string, t4: string, rest: string)
    ensures f0 + t0 + f1 + t1 + f2 + t2 + f3 + t3 + f4 + t4 + rest ==
      f0 + (t0 + (f1 + (t1 + (f2 + (t2 + (f3 + (t3 + (f4 + (t4 + rest)))))))))
  {
    var l9 := f0 + t0 + f1 + t1 + f2 + t2 + f3 + t3 + f4;
    var l8 := f0 + t0 + f1 + t1 + f2 + t2 + f3 + t3;
    var l7 := f0 + t0 + f1 + t1 + f2 + t2 + f3;
    var l6 := f0 + t0 + f1 + t1 + f2 + t2;
    var l5 := f0 + t0 + f1 + t1 + f2;
    var l4 := f0 + t0 + f1 + t1;
    var l3 := f0 + t0 + f1;
    var l2 := f0 + t0;
    Concat3(l9, t4, rest);
    Concat3(l8, f4, t4 + rest);
    Concat3(l7, t3, f4 + (t4 + rest));
    Concat3(l6, f3, t3 + (f4 + (t4 + rest)));
    Concat3(l5, t2, f3 + (t3 + (f4 + (t4 + rest))));
    Concat3(l4, f2, t2 + (f3 + (t3 + (f4 + (t4 + rest)))));
    Concat3(l3, t1, f2 + (t2 + (f3 + (t3 + (f4 + (t4 + rest))))));
    Concat3(l2, f1, t1 + (f2 + (t2 + (f3 + (t3 + (f4 + (t4 + rest)))))));
    Concat3(f0, t0, f1 + (t1 + (f2 + (t2 + (f3 + (t3 + (f4 + (t4 + rest))))))));
  }
}

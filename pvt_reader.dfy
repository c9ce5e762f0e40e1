/**
 * Reading the controller's PVT dialect back: register assignments
 * `PVx=<v0>,<v1>,...`, each ended by `;` or a newline. `Reads` says that a
 * stretch of text reads as a given run of assignments whatever follows
 * it; runs compose by concatenation (`ReadsConcat`).
 */
module PvtReader {
  import opened Wrappers
  import opened Decimal

  lemma Concat3(a: string, b: string, c: string)
    ensures a + b + c == a + (b + c)
  {
  }

  /** One register assignment of the dialect: `<register>=<v0>,<v1>,...`. */
  datatype Assignment = Assignment(register: string, values: seq<int>)

  /** Reads comma-separated integers; stops before the first character that does not continue the list. */
  function ParseValues(s: string): (r: Option<(seq<int>, string)>)
    ensures r.Some? ==> |r.value.1| < |s|
    decreases |s|
  {
    match ParseInt(s)
    case None => None
    case Some((x, rest)) =>
      if |rest| > 0 && rest[0] == ',' then
        match ParseValues(rest[1..])
        case None => None
        case Some((xs, rest')) => Some(([x] + xs, rest'))
      else Some(([x], rest))
  }

  /** Reads `PVx=<values>` and the `;` or newline that ends it. */
  function ParseAssignment(s: string): (r: Option<(Assignment, string)>)
    ensures r.Some? ==> |r.value.1| < |s|
  {
    if |s| >= 4 && s[..2] == "PV" && s[3] == '=' then
      match ParseValues(s[4..])
      case None => None
      case Some((vs, rest)) =>
        if |rest| > 0 && (rest[0] == ';' || rest[0] == '\n') then Some((Assignment(s[..3], vs), rest[1..])) else None
    else None
  }

  /** Reads assignments for as long as the text continues with `PV`. */
  function ParseAssignments(s: string): Option<(seq<Assignment>, string)>
    decreases |s|
  {
    if |s| >= 2 && s[..2] == "PV" then
      match ParseAssignment(s)
      case None => None
      case Some((a, rest)) =>
        match ParseAssignments(rest)
        case None => None
        case Some((more, rest')) => Some(([a] + more, rest'))
    else Some(([], s))
  }

  /** Extends the assignments an outcome holds at its front. */
  function Prefixed(front: seq<Assignment>, r: Option<(seq<Assignment>, string)>): Option<(seq<Assignment>, string)>
  {
    match r
    case None => None
    case Some((more, rest)) => Some((front + more, rest))
  }

  lemma PrefixedAppend(front: seq<Assignment>, back: seq<Assignment>, r: Option<(seq<Assignment>, string)>)
    ensures Prefixed(front, Prefixed(back, r)) == Prefixed(front + back, r)
  {
    match r
    case None =>
    case Some((more, rest)) =>
      assert front + (back + more) == (front + back) + more;
  }

  /** `text` reads as the assignments `segs`, whatever text follows it. */
  ghost predicate Reads(text: string, segs: seq<Assignment>)
  {
    forall rest: string :: ParseAssignments(text + rest) == Prefixed(segs, ParseAssignments(rest))
  }

  lemma ReadsAt(text: string, segs: seq<Assignment>, rest: string)
    requires Reads(text, segs)
    ensures ParseAssignments(text + rest) == Prefixed(segs, ParseAssignments(rest))
  {
  }

  lemma ReadsEmpty()
    ensures Reads("", [])
  {
    forall rest: string
      ensures ParseAssignments("" + rest) == Prefixed([], ParseAssignments(rest))
    {
      assert "" + rest == rest;
      match ParseAssignments(rest)
      case None =>
      case Some((more, r)) => assert [] + more == more;
    }
  }

  /** Two stretches of text read, one after the other, as their two runs of assignments. */
  lemma ReadsConcat(t1: string, s1: seq<Assignment>, t2: string, s2: seq<Assignment>)
    requires Reads(t1, s1) && Reads(t2, s2)
    ensures Reads(t1 + t2, s1 + s2)
  {
    forall rest: string
      ensures ParseAssignments(t1 + t2 + rest) == Prefixed(s1 + s2, ParseAssignments(rest))
    {
      ReadsAt(t1, s1, t2 + rest);
      ReadsAt(t2, s2, rest);
      Concat3(t1, t2, rest);
      PrefixedAppend(s1, s2, ParseAssignments(rest));
    }
  }

  /** Gathers the five single-field outcomes of one row into the row's outcome. */
  lemma GatherRow(row: seq<Assignment>, p0: Option<(seq<Assignment>, string)>, p1: Option<(seq<Assignment>, string)>,
                  p2: Option<(seq<Assignment>, string)>, p3: Option<(seq<Assignment>, string)>,
                  p4: Option<(seq<Assignment>, string)>, p5: Option<(seq<Assignment>, string)>)
    requires |row| == 5
    requires p0 == Prefixed([row[0]], p1) && p1 == Prefixed([row[1]], p2) && p2 == Prefixed([row[2]], p3)
    requires p3 == Prefixed([row[3]], p4) && p4 == Prefixed([row[4]], p5)
    ensures p0 == Prefixed(row, p5)
  {
    PrefixedAppend([row[3]], [row[4]], p5);
    PrefixedAppend([row[2]], [row[3]] + [row[4]], p5);
    PrefixedAppend([row[1]], [row[2]] + ([row[3]] + [row[4]]), p5);
    PrefixedAppend([row[0]], [row[1]] + ([row[2]] + ([row[3]] + [row[4]])), p5);
    assert [row[0]] + ([row[1]] + ([row[2]] + ([row[3]] + [row[4]]))) == row;
  }

  /** Comma-separated values, as the stream writes them. */
  function JoinValues(vs: seq<int>): string
    requires |vs| >= 1
    decreases |vs|
  {
    if |vs| == 1 then IntToString(vs[0]) else IntToString(vs[0]) + ("," + JoinValues(vs[1..]))
  }

  function Render(a: Assignment): string
    requires |a.values| >= 1
  {
    a.register + "=" + JoinValues(a.values)
  }

  lemma {:induction false} ParseJoined(vs: seq<int>, tail: string)
    requires |vs| >= 1 && |tail| > 0 && tail[0] != ',' && !IsDigit(tail[0])
    ensures ParseValues(JoinValues(vs) + tail) == Some((vs, tail))
    decreases |vs|
  {
    if |vs| == 1 {
      ParseIntToString(vs[0], tail);
      assert [vs[0]] == vs;
    } else {
      var more := JoinValues(vs[1..]) + tail;
      Concat3(IntToString(vs[0]), "," + JoinValues(vs[1..]), tail);
      Concat3(",", JoinValues(vs[1..]), tail);
      ParseIntToString(vs[0], "," + more);
      assert ("," + more)[1..] == more;
      ParseJoined(vs[1..], tail);
      assert [vs[0]] + vs[1..] == vs;
    }
  }

  lemma ParseRendered(a: Assignment, sep: char, rest: string)
    requires |a.register| == 3 && a.register[..2] == "PV" && |a.values| >= 1
    requires sep == ';' || sep == '\n'
    ensures ParseAssignments(Render(a) + ([sep] + rest)) == Prefixed([a], ParseAssignments(rest))
  {
    var s := Render(a) + ([sep] + rest);
    Concat3(a.register + "=", JoinValues(a.values), [sep] + rest);
    Concat3(a.register, "=", JoinValues(a.values) + ([sep] + rest));
    assert s[..2] == "PV" && s[3] == '=' && s[..3] == a.register;
    assert s[4..] == JoinValues(a.values) + ([sep] + rest);
    ParseJoined(a.values, [sep] + rest);
    assert ([sep] + rest)[1..] == rest;
  }
}

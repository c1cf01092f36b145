/**
 * The point-cloud loader of the plant-density page: `parsePointCloud` reads the
 * text body of an ASCII PLY file (Stanford polygon format), skips the header up
 * to and including the `end_header` line, and appends one transformed xyz triple
 * and one white rgb triple per vertex line to the page's global `vertices` and
 * `colors` buffers.
 */
module PlantCloud {

  datatype Option<+T> = None | Some(value: T)

  // ---------------------------------------------------------------------------
  // String splitting, as `String.prototype.split` with a one-character separator
  // ---------------------------------------------------------------------------

  /** The pieces of `s` between occurrences of `sep`, in order. */
  function Split(s: string, sep: char): (r: seq<string>)
    ensures |r| >= 1
    ensures forall k :: 0 <= k < |r| ==> sep !in r[k]
    decreases |s|
  {
    if |s| == 0 then [""]
    else
      var rest := Split(s[1..], sep);
      if s[0] == sep then [""] + rest
      else [[s[0]] + rest[0]] + rest[1..]
  }

  /** `parts.join(sep)`: the inverse of Split. */
  function Join(parts: seq<string>, sep: char): string
    requires |parts| >= 1
  {
    if |parts| == 1 then parts[0] else parts[0] + [sep] + Join(parts[1..], sep)
  }

  /** Splitting loses nothing: joining the pieces gives back the text. */
  lemma {:induction false} JoinSplit(s: string, sep: char)
    ensures Join(Split(s, sep), sep) == s
    decreases |s|
  {
    if |s| > 0 {
      var rest := Split(s[1..], sep);
      JoinSplit(s[1..], sep);
      if s[0] == sep {
        assert ([""] + rest)[1..] == rest;
      } else {
        var r := Split(s, sep);
        assert r[0] == [s[0]] + rest[0];
        if |rest| > 1 {
          assert r[1..] == rest[1..];
          assert Join(rest, sep) == rest[0] + [sep] + Join(rest[1..], sep);
        }
      }
    }
  }

  /** A text without the separator is one piece. */
  lemma {:induction false} SplitNoSeparator(t: string, sep: char)
    requires sep !in t
    ensures Split(t, sep) == [t]
    decreases |t|
  {
    if |t| > 0 {
      SplitNoSeparator(t[1..], sep);
      assert [t[0]] + t[1..] == t;
    }
  }

  /** Text after the last separator becomes the last piece. */
  lemma {:induction false} SplitAppend(a: string, sep: char, t: string)
    requires sep !in t
    ensures Split(a + [sep] + t, sep) == Split(a, sep) + [t]
    decreases |a|
  {
    var s := a + [sep] + t;
    if |a| == 0 {
      assert s == [sep] + t;
      assert s[1..] == t;
      SplitNoSeparator(t, sep);
    } else {
      assert s[0] == a[0];
      assert s[1..] == a[1..] + [sep] + t;
      SplitAppend(a[1..], sep, t);
    }
  }

  // ---------------------------------------------------------------------------
  // Lines of the file
  // ---------------------------------------------------------------------------

  const EndHeader: string := "end_header"

  /** `pat` occurs in `s` starting at position i. */
  predicate OccursAt(s: string, pat: string, i: int) {
    0 <= i && i + |pat| <= |s| && s[i..i + |pat|] == pat
  }

  /** `s.includes(pat)`. */
  predicate Contains(s: string, pat: string) {
    exists i | 0 <= i <= |s| - |pat| :: OccursAt(s, pat, i)
  }

  /** Some of the first n lines contains `end_header`: the loop's `header` flag is down before line n. */
  predicate HeaderSeen(ls: seq<string>, n: nat)
    requires n <= |ls|
  {
    n > 0 && (HeaderSeen(ls, n - 1) || Contains(ls[n - 1], EndHeader))
  }

  lemma {:induction false} HeaderSeenIff(ls: seq<string>, n: nat)
    requires n <= |ls|
    ensures HeaderSeen(ls, n) <==> exists j :: 0 <= j < n && Contains(ls[j], EndHeader)
    decreases n
  {
    if n > 0 {
      HeaderSeenIff(ls, n - 1);
    }
  }

  // ---------------------------------------------------------------------------
  // Points
  // ---------------------------------------------------------------------------

  /** A vertex as written in the file. */
  datatype Point = Point(x: real, y: real, z: real)

  /** The scale and offsets `parsePointCloud` is called with. */
  datatype Transform = Transform(scale: real, xAdd: real, yAdd: real, zAdd: real)

  /** `parseFloat(fields[k])`; a missing field reads as `undefined`, which parses as NaN. */
  function Field(fields: seq<string>, k: nat, parse: string -> Option<real>): Option<real>
  {
    if k < |fields| then parse(fields[k]) else None
  }

  /** The point a body line denotes, if its first three space-separated fields are numbers. */
  function LinePoint(line: string, parse: string -> Option<real>): (r: Option<Point>)
    ensures r.Some? <==> (var f := Split(line, ' ');
                          Field(f, 0, parse).Some? && Field(f, 1, parse).Some? && Field(f, 2, parse).Some?)
  {
    var f := Split(line, ' ');
    var x, y, z := Field(f, 0, parse), Field(f, 1, parse), Field(f, 2, parse);
    if x.Some? && y.Some? && z.Some? then Some(Point(x.value, y.value, z.value)) else None
  }

  /** Line k adds a point: the header has ended before it, it is not an `end_header` line, and it parses. */
  predicate Accepted(ls: seq<string>, k: nat, parse: string -> Option<real>)
    requires k < |ls|
  {
    HeaderSeen(ls, k) && !Contains(ls[k], EndHeader) && LinePoint(ls[k], parse).Some?
  }

  /** The points `parsePointCloud` takes from the first n lines, in file order. */
  function CloudPoints(ls: seq<string>, n: nat, parse: string -> Option<real>): (r: seq<Point>)
    requires n <= |ls|
    ensures |r| <= n
    decreases n
  {
    if n == 0 then []
    else
      CloudPoints(ls, n - 1, parse) + (if Accepted(ls, n - 1, parse) then [LinePoint(ls[n - 1], parse).value] else [])
  }

  /** A line that is not accepted leaves the points as they were. */
  lemma SkipStep(ls: seq<string>, i: nat, parse: string -> Option<real>)
    requires i < |ls| && !Accepted(ls, i, parse)
    ensures HeaderSeen(ls, i + 1) == (HeaderSeen(ls, i) || Contains(ls[i], EndHeader))
    ensures CloudPoints(ls, i + 1, parse) == CloudPoints(ls, i, parse)
  {
  }

  /** The points of a whole file: every piece of `data.split("\n")` but the last is visited. */
  function FilePoints(data: string, parse: string -> Option<real>): seq<Point> {
    var lines := Split(data, '\n');
    CloudPoints(lines, |lines| - 1, parse)
  }

  /** The three coordinates stored for a point: y is negated before scaling. */
  function Place(p: Point, t: Transform): seq<real> {
    [Coord(p.x, t.scale, t.xAdd), Coord(-p.y, t.scale, t.yAdd), Coord(p.z, t.scale, t.zAdd)]
  }

  /** `v * scale + add`. */
  function Coord(v: real, scale: real, add: real): real {
    v * scale + add
  }

  /** The coordinates stored for `ps`, three per point. */
  function Vertices(ps: seq<Point>, t: Transform): (r: seq<real>)
    ensures |r| == 3 * |ps|
  {
    if ps == [] then [] else Vertices(ps[..|ps| - 1], t) + Place(ps[|ps| - 1], t)
  }

  /** The colour values stored for `n` points: all white. */
  function White(n: nat): (r: seq<real>)
    ensures |r| == 3 * n && forall k :: 0 <= k < |r| ==> r[k] == 1.0
  {
    seq(3 * n, _ => 1.0)
  }

  /** Appending whole points keeps a length that is a multiple of three. */
  lemma MulThree(a: int, n: nat)
    requires a % 3 == 0
    ensures (a + 3 * n) % 3 == 0
  {
  }

  /** An accepted line appends its point, its three coordinates and three white channels. */
  lemma AcceptStep(ls: seq<string>, i: nat, parse: string -> Option<real>, t: Transform)
    requires i < |ls| && Accepted(ls, i, parse)
    ensures var p, pts := LinePoint(ls[i], parse).value, CloudPoints(ls, i, parse);
      && HeaderSeen(ls, i + 1)
      && CloudPoints(ls, i + 1, parse) == pts + [p]
      && Vertices(pts, t) + Place(p, t) == Vertices(pts + [p], t)
      && White(|pts|) + [1.0, 1.0, 1.0] == White(|pts| + 1)
  {
    var p, pts := LinePoint(ls[i], parse).value, CloudPoints(ls, i, parse);
    assert (pts + [p])[..|pts|] == pts;
    assert Vertices(pts + [p], t) == Vertices(pts, t) + Place(p, t);
    assert White(|pts| + 1) == White(|pts|) + [1.0, 1.0, 1.0];
  }

  /** Point k occupies slots 3k, 3k+1, 3k+2, holding (x*scale+xAdd, -y*scale+yAdd, z*scale+zAdd). */
  lemma {:induction false} VertexLayout(ps: seq<Point>, t: Transform, k: nat)
    requires k < |ps|
    ensures Vertices(ps, t)[3 * k] == ps[k].x * t.scale + t.xAdd
    ensures Vertices(ps, t)[3 * k + 1] == -ps[k].y * t.scale + t.yAdd
    ensures Vertices(ps, t)[3 * k + 2] == ps[k].z * t.scale + t.zAdd
    decreases |ps|
  {
    var init := ps[..|ps| - 1];
    if k < |ps| - 1 {
      VertexLayout(init, t, k);
      assert init[k] == ps[k];
    }
  }

  /** No line up to and including the first `end_header` line adds a point. */
  lemma {:induction false} NoPointsInHeader(ls: seq<string>, n: nat, parse: string -> Option<real>)
    requires n <= |ls| && (n == 0 || !HeaderSeen(ls, n - 1))
    ensures CloudPoints(ls, n, parse) == []
    decreases n
  {
    if n > 0 {
      NoPointsInHeader(ls, n - 1, parse);
    }
  }

  /** Every stored point is the parse of an accepted body line. */
  lemma {:induction false} PointOrigin(ls: seq<string>, n: nat, parse: string -> Option<real>, q: nat)
    requires n <= |ls| && q < |CloudPoints(ls, n, parse)|
    ensures exists j :: 0 <= j < n && Accepted(ls, j, parse) && LinePoint(ls[j], parse).value == CloudPoints(ls, n, parse)[q]
    decreases n
  {
    var before := CloudPoints(ls, n - 1, parse);
    if q < |before| {
      PointOrigin(ls, n - 1, parse, q);
      var j :| 0 <= j < n - 1 && Accepted(ls, j, parse) && LinePoint(ls[j], parse).value == before[q];
      assert CloudPoints(ls, n, parse)[q] == before[q];
    } else {
      assert Accepted(ls, n - 1, parse);
    }
  }

  /** What is read from the first n lines does not depend on the lines after them. */
  lemma {:induction false} PrefixDetermines(a: seq<string>, b: seq<string>, n: nat, parse: string -> Option<real>)
    requires n <= |a|
    ensures HeaderSeen(a + b, n) == HeaderSeen(a, n)
    ensures CloudPoints(a + b, n, parse) == CloudPoints(a, n, parse)
    decreases n
  {
    if n > 0 {
      PrefixDetermines(a, b, n - 1, parse);
      assert (a + b)[n - 1] == a[n - 1];
    }
  }

  /** Whatever follows the final newline of a file is never read: the points are those of all lines before it. */
  lemma LastPieceIgnored(body: string, t: string, parse: string -> Option<real>)
    requires '\n' !in t
    ensures var ls := Split(body, '\n'); FilePoints(body + ['\n'] + t, parse) == CloudPoints(ls, |ls|, parse)
  {
    var ls := Split(body, '\n');
    var data := body + ['\n'] + t;
    SplitAppend(body, '\n', t);
    assert Split(data, '\n') == ls + [t];
    PrefixDetermines(ls, [t], |ls|, parse);
    assert FilePoints(data, parse) == CloudPoints(ls + [t], |ls|, parse);
  }

  // ---------------------------------------------------------------------------
  // The page's global buffers
  // ---------------------------------------------------------------------------

  /** The loop of `parsePointCloud` over the first n lines: the coordinates and colours it pushes, and its `pointCount`. */
  method ReadLines(lines: seq<string>, n: nat, t: Transform, parse: string -> Option<real>)
      returns (vs: seq<real>, cs: seq<real>, pointCount: nat)
    requires n <= |lines|
    ensures var pts := CloudPoints(lines, n, parse);
      && pointCount == |pts|
      && vs == Vertices(pts, t)
      && cs == White(pointCount)
  {
    var header := true;
    pointCount := 0;
    ghost var pts: seq<Point> := [];
    vs, cs := [], [];
    for i := 0 to n
      invariant header == !HeaderSeen(lines, i)
      invariant pts == CloudPoints(lines, i, parse)
      invariant pointCount == |pts|
      invariant vs == Vertices(pts, t)
      invariant cs == White(pointCount)
    {
      if Contains(lines[i], EndHeader) {
        SkipStep(lines, i, parse);
        header := false;
      } else if !header {
        var point := LinePoint(lines[i], parse);
        if point.Some? {
          var p := point.value;
          AcceptStep(lines, i, parse, t);
          // The three pushes of `vertices`, one coordinate each, as `Place` lists them.
          vs := vs + [Coord(p.x, t.scale, t.xAdd), Coord(-p.y, t.scale, t.yAdd), Coord(p.z, t.scale, t.zAdd)];
          cs := cs + [1.0, 1.0, 1.0];
          pointCount := pointCount + 1;
          pts := pts + [p];
        } else {
          SkipStep(lines, i, parse);
        }
      } else {
        SkipStep(lines, i, parse);
      }
    }
  }

  class PointCloud {
    var vertices: seq<real>
    var colors: seq<real>

    /** The buffers stay parallel: three coordinates and three white channels per point. */
    ghost predicate Valid()
      reads this
    {
      |vertices| == |colors| && |vertices| % 3 == 0
    }

    constructor ()
      ensures Valid() && vertices == [] && colors == []
    {
      vertices, colors := [], [];
    }

    /** `parsePointCloud(data, scale, xAdd, yAdd, zAdd)`; returns its local `pointCount`. */
    method ParsePointCloud(data: string, t: Transform, parse: string -> Option<real>) returns (pointCount: nat)
      requires Valid()
      modifies this
      ensures Valid()
      ensures var pts := FilePoints(data, parse);
        && pointCount == |pts|
        && vertices == old(vertices) + Vertices(pts, t)
        && colors == old(colors) + White(pointCount)
    {
      var lines := Split(data, '\n');
      var vs, cs;
      vs, cs, pointCount := ReadLines(lines, |lines| - 1, t, parse);
      MulThree(|vertices|, pointCount);
      vertices, colors := vertices + vs, colors + cs;
    }
  }
}

/** Reading the route out of a live trip identifier such as `081300_B..S66R`. */
module TripIds {
  import opened Matching
  import opened Sequences

  /** Python's `s.split(sep)` for a one-character separator. */
  function Split(s: string, sep: char): (parts: seq<string>)
    ensures |parts| >= 1
  {
    if s == [] then [""] else
      var rest := Split(s[1..], sep);
      if s[0] == sep then [""] + rest else [[s[0]] + rest[0]] + rest[1..]
  }

  function Join(parts: seq<string>, sep: char): string
    requires |parts| >= 1
  {
    if |parts| == 1 then parts[0] else parts[0] + [sep] + Join(parts[1..], sep)
  }

  lemma JoinPush(c: char, parts: seq<string>, sep: char)
    requires |parts| >= 1
    ensures Join([[c] + parts[0]] + parts[1..], sep) == [c] + Join(parts, sep)
  {
    var all := [[c] + parts[0]] + parts[1..];
    assert all[1..] == parts[1..];
    if |parts| > 1 {
      Reassociate([c], parts[0], [sep]);
      Reassociate([c], parts[0] + [sep], Join(parts[1..], sep));
    }
  }

  lemma JoinEmptyFirst(parts: seq<string>, sep: char)
    requires |parts| >= 1
    ensures Join([""] + parts, sep) == [sep] + Join(parts, sep)
  {
    assert ([""] + parts)[1..] == parts;
    assert "" + [sep] == [sep];
  }

  /** Splitting loses nothing, and no part contains the separator. */
  lemma {:induction false} JoinSplit(s: string, sep: char)
    ensures Join(Split(s, sep), sep) == s
    ensures forall part | part in Split(s, sep) :: sep !in part
  {
    if s == [] {
    } else {
      JoinSplit(s[1..], sep);
      PartsPure(s, sep);
      if s[0] == sep {
        JoinEmptyFirst(Split(s[1..], sep), sep);
      } else {
        JoinPush(s[0], Split(s[1..], sep), sep);
      }
    }
  }

  lemma PartsPure(s: string, sep: char)
    requires s != [] && forall part | part in Split(s[1..], sep) :: sep !in part
    ensures forall part | part in Split(s, sep) :: sep !in part
  {
    var rest := Split(s[1..], sep);
    assert rest[0] in rest;
    if s[0] != sep {
      assert sep !in [s[0]] + rest[0];
    }
  }

  /** The first part ends at the first separator. */
  lemma {:induction false} SplitAtFirst(a: string, sep: char, b: string)
    requires sep !in a
    ensures Split(a + [sep] + b, sep) == [a] + Split(b, sep)
  {
    var s := a + [sep] + b;
    if a == [] {
      assert s[1..] == b;
    } else {
      assert s[1..] == a[1..] + [sep] + b;
      SplitAtFirst(a[1..], sep, b);
      assert [a[0]] + a[1..] == a;
    }
  }

  lemma {:induction false} SplitWhole(a: string, sep: char)
    requires sep !in a
    ensures Split(a, sep) == [a]
  {
    if a == [] {
    } else {
      SplitWhole(a[1..], sep);
      assert [a[0]] + a[1..] == a;
    }
  }

  /** Splitting inverts joining. */
  lemma {:induction false} SplitJoin(parts: seq<string>, sep: char)
    requires |parts| >= 1 && forall part | part in parts :: sep !in part
    ensures Split(Join(parts, sep), sep) == parts
  {
    assert parts[0] in parts;
    if |parts| == 1 {
      SplitWhole(parts[0], sep);
    } else {
      SplitJoin(parts[1..], sep);
      SplitAtFirst(parts[0], sep, Join(parts[1..], sep));
    }
  }

  /** The route to use: the known one, else the text between the first '_' and the next '.'. */
  function InferRoute(route: string, tripId: string): string {
    if route == UNKNOWN && '_' in tripId then
      var parts := Split(tripId, '_');
      if |parts| > 1 && '.' in parts[1] then Split(parts[1], '.')[0] else route
    else route
  }

  /** `id` is laid out as prefix, '_', route, '.', tail. */
  ghost predicate LaidOut(id: string, prefix: string, route: string, tail: string) {
    && '_' !in prefix && '_' !in route && '.' !in route
    && id == prefix + "_" + route + "." + tail
  }

  lemma {:induction false} SplitHead(s: string, sep: char)
    ensures sep in s ==> exists b :: s == Split(s, sep)[0] + [sep] + b && sep !in Split(s, sep)[0]
    ensures sep !in s ==> Split(s, sep) == [s]
  {
    JoinSplit(s, sep);
    var parts := Split(s, sep);
    if |parts| > 1 {
      assert s == parts[0] + [sep] + Join(parts[1..], sep);
    }
    if sep !in s { SplitWhole(s, sep); }
  }

  /** Text without the separator stays at the front of the first part. */
  lemma {:induction false} SplitPrefix(x: string, y: string, sep: char)
    requires sep !in x
    ensures Split(x + y, sep)[0] == x + Split(y, sep)[0]
  {
    if x == [] {
      assert x + y == y;
    } else {
      assert (x + y)[1..] == x[1..] + y;
      SplitPrefix(x[1..], y, sep);
    }
  }

  lemma InferLaidOut(id: string, prefix: string, route: string, tail: string)
    requires LaidOut(id, prefix, route, tail)
    ensures InferRoute(UNKNOWN, id) == route
  {
    var body := route + "." + tail;
    assert id == prefix + ['_'] + body;
    SplitAtFirst(prefix, '_', body);
    SplitPrefix(route + ".", tail, '_');
    var rest := Split(tail, '_')[0];
    assert Split(id, '_')[1] == route + ['.'] + rest;
    SplitAtFirst(route, '.', rest);
  }

  lemma SecondPart(id: string) returns (after: string)
    requires |Split(id, '_')| > 1
    ensures id == Split(id, '_')[0] + ['_'] + Split(id, '_')[1] + after
    ensures '_' !in Split(id, '_')[0] && '_' !in Split(id, '_')[1]
  {
    var parts := Split(id, '_');
    JoinSplit(id, '_');
    assert parts[0] in parts && parts[1] in parts;
    if |parts| == 2 {
      after := "";
    } else {
      after := ['_'] + Join(parts[1..][1..], '_');
    }
    assert Join(parts[1..], '_') == parts[1] + after;
  }

  lemma LayoutOf(id: string) returns (prefix: string, tail: string)
    requires InferRoute(UNKNOWN, id) != UNKNOWN
    ensures LaidOut(id, prefix, InferRoute(UNKNOWN, id), tail)
  {
    var after := SecondPart(id);
    var second := Split(id, '_')[1];
    SplitHead(second, '.');
    var r := Split(second, '.')[0];
    var b :| second == r + ['.'] + b && '.' !in r;
    assert forall c :: c in r ==> c in second;
    prefix, tail := Split(id, '_')[0], b + after;
    assert id == prefix + "_" + r + "." + tail;
  }

  /** An unknown route is inferred to be `r` exactly when the identifier is laid out with `r` in the
      route's place; every other identifier leaves the route unknown. */
  lemma InferenceInvertsLayout(id: string, r: string)
    ensures (exists prefix, tail :: LaidOut(id, prefix, r, tail)) ==> InferRoute(UNKNOWN, id) == r
    ensures InferRoute(UNKNOWN, id) == r ==> r == UNKNOWN || exists prefix, tail :: LaidOut(id, prefix, r, tail)
  {
    if prefix, tail :| LaidOut(id, prefix, r, tail) {
      InferLaidOut(id, prefix, r, tail);
    }
    if InferRoute(UNKNOWN, id) == r && r != UNKNOWN {
      var prefix, tail := LayoutOf(id);
    }
  }

  /** The layout of the live feeds puts two dots after the route, and anything after those. */
  lemma LiveIdTellsRoute(prefix: string, route: string, rest: string)
    requires '_' !in prefix && '_' !in route && '.' !in route
    ensures InferRoute(UNKNOWN, prefix + "_" + route + ".." + rest) == route
  {
    assert prefix + "_" + route + ".." + rest == prefix + "_" + route + "." + ("." + rest);
    InferLaidOut(prefix + "_" + route + ".." + rest, prefix, route, "." + rest);
  }
}

/**
  The pure slice of `src/database.rs`: equality of track headers, and the
  query that `get_tracks_by_vibes` prepares before it reaches SQLite. The
  query is modelled as a `Plan`: either no query at all, or the SQL text
  together with the values bound to its `?` placeholders, in binding order.
  Running the query is not modelled.
*/
module Database {

  /** A signed 64-bit integer, the type of a track id. */
  type I64 = x: int | -0x8000_0000_0000_0000 <= x < 0x8000_0000_0000_0000

  datatype Vibe = Vibe(name: string, groupName: string)

  datatype TrackHeader = TrackHeader(id: I64, path: string, vibes: seq<Vibe>)

  // ---------------------------------------------------------------------------
  // Track equality
  // ---------------------------------------------------------------------------

  /**
    `PartialEq` for track headers: two headers are equal when their ids are,
    that is, when they differ at most in path and vibes.
  */
  function Eq(a: TrackHeader, b: TrackHeader): (r: bool)
    ensures a == b ==> r
    ensures r <==> a.(path := b.path, vibes := b.vibes) == b
  {
    a.id == b.id
  }

  /** The relation is an equivalence on ids, and it ignores path and vibes. */
  lemma EqIsIdEquivalence(a: TrackHeader, b: TrackHeader, c: TrackHeader,
                          path: string, vibes: seq<Vibe>)
    ensures Eq(a, a)
    ensures Eq(a, b) ==> Eq(b, a)
    ensures Eq(a, b) && Eq(b, c) ==> Eq(a, c)
    ensures Eq(a, b) <==> Eq(a.(path := path, vibes := vibes), b)
    ensures Eq(a, b) <==> a.id == b.id
  {
  }

  /**
    Two headers for the same id but different files compare equal, so the
    relation is strictly coarser than structural equality.
  */
  lemma EqIgnoresPath()
    ensures var a := TrackHeader(1, "a.mp3", []);
            var b := TrackHeader(1, "b.mp3", [Vibe("calm", "mood")]);
            Eq(a, b) && a != b
  {
  }

  // ---------------------------------------------------------------------------
  // Text helpers
  // ---------------------------------------------------------------------------

  /** The total length of `parts`. */
  function TotalLength(parts: seq<string>): nat
  {
    if |parts| == 0 then 0 else |parts[0]| + TotalLength(parts[1..])
  }

  /** `parts` joined with `sep` between neighbours, as `[String]::join`. */
  function Join(parts: seq<string>, sep: string): (r: string)
    ensures |parts| == 0 ==> r == ""
    ensures |parts| > 0 ==> |r| == TotalLength(parts) + (|parts| - 1) * |sep|
    ensures |parts| > 0 ==> r[..|parts[0]|] == parts[0]
  {
    if |parts| == 0 then ""
    else if |parts| == 1 then parts[0]
    else parts[0] + sep + Join(parts[1..], sep)
  }

  /** One `"?"` per name, the `map(|_| "?")` over the names. */
  function Marks(names: seq<string>): (r: seq<string>)
    ensures |r| == |names|
    ensures forall i :: 0 <= i < |r| ==> r[i] == "?"
  {
    if |names| == 0 then [] else ["?"] + Marks(names[1..])
  }

  /** The number of occurrences of `c` in `s`. */
  function Count(c: char, s: string): nat
  {
    if |s| == 0 then 0
    else (if s[0] == c then 1 else 0) + Count(c, s[1..])
  }

  lemma {:induction false} CountConcat(c: char, s: string, t: string)
    ensures Count(c, s + t) == Count(c, s) + Count(c, t)
  {
    if |s| > 0 {
      assert (s + t)[0] == s[0];
      assert (s + t)[1..] == s[1..] + t;
      CountConcat(c, s[1..], t);
    } else {
      assert s + t == t;
    }
  }

  /** `s` holds no `?`, the placeholder character. */
  predicate NoMark(s: string)
  {
    forall i :: 0 <= i < |s| ==> s[i] != '?'
  }

  lemma {:induction false} CountAbsent(c: char, s: string)
    requires forall i :: 0 <= i < |s| ==> s[i] != c
    ensures Count(c, s) == 0
  {
    if |s| > 0 {
      CountAbsent(c, s[1..]);
    }
  }

  /**
    Joining `n >= 1` question marks with commas gives `?,?,…,?`: length
    `2n - 1`, a `?` at every even position and a `,` at every odd one.
  */
  lemma {:induction false} PlaceholderShape(parts: seq<string>)
    requires |parts| > 0
    requires forall i :: 0 <= i < |parts| ==> parts[i] == "?"
    ensures |Join(parts, ",")| == 2 * |parts| - 1
    ensures forall i :: 0 <= i < |Join(parts, ",")| ==>
              Join(parts, ",")[i] == if i % 2 == 0 then '?' else ','
  {
    if |parts| > 1 {
      var rest := Join(parts[1..], ",");
      PlaceholderShape(parts[1..]);
      assert Join(parts, ",") == "?," + rest;
      forall i | 2 <= i < |Join(parts, ",")|
        ensures Join(parts, ",")[i] == if i % 2 == 0 then '?' else ','
      {
        assert Join(parts, ",")[i] == rest[i - 2];
      }
    }
  }

  /** The joined question marks hold `n` question marks and `n - 1` commas. */
  lemma {:induction false} PlaceholderCounts(parts: seq<string>)
    requires |parts| > 0
    requires forall i :: 0 <= i < |parts| ==> parts[i] == "?"
    ensures Count('?', Join(parts, ",")) == |parts|
    ensures Count(',', Join(parts, ",")) == |parts| - 1
  {
    if |parts| > 1 {
      PlaceholderCounts(parts[1..]);
      var rest := Join(parts[1..], ",");
      assert Join(parts, ",") == "?," + rest;
      CountConcat('?', "?,", rest);
      CountConcat(',', "?,", rest);
    }
  }

  /** Where the parts of a three-part concatenation sit in it. */
  lemma Slices(a: string, b: string, c: string)
    ensures |a + b + c| == |a| + |b| + |c|
    ensures (a + b + c)[..|a|] == a
    ensures forall k :: 0 <= k < |b| ==> (a + b + c)[|a| + k] == b[k]
    ensures (a + b + c)[|a| + |b|..] == c
  {
    assert (a + b + c)[|a| + |b|..] == c;
    assert (a + b + c)[..|a|] == a;
  }

  /** A concatenation of three texts without `?` has no `?`. */
  lemma MarkFree(a: string, b: string, c: string)
    requires Count('?', a) == 0 && Count('?', b) == 0 && Count('?', c) == 0
    ensures Count('?', a + b + c) == 0
  {
    CountConcat('?', a, b);
    CountConcat('?', a + b, c);
  }

  /** The decimal digit character for `d`. */
  function DigitChar(d: nat): char
    requires d < 10
  {
    ('0' as int + d) as char
  }

  predicate IsDigit(c: char)
  {
    '0' <= c <= '9'
  }

  /** `n` as `format!("{}")` prints an unsigned integer: decimal, no leading zero. */
  function Decimal(n: nat): (s: string)
    ensures |s| > 0
    ensures forall i :: 0 <= i < |s| ==> IsDigit(s[i])
    ensures s[0] != '0' || n == 0
  {
    if n < 10 then [DigitChar(n)]
    else Decimal(n / 10) + [DigitChar(n % 10)]
  }

  /** The value of a string of decimal digits. */
  function ParseDecimal(s: string): nat
    requires forall i :: 0 <= i < |s| ==> IsDigit(s[i])
  {
    if |s| == 0 then 0
    else
      assert IsDigit(s[|s| - 1]);
      10 * ParseDecimal(s[..|s| - 1]) + (s[|s| - 1] as int - '0' as int)
  }

  /** Reading the printed number back gives the number. */
  lemma {:induction false} DecimalRoundTrip(n: nat)
    ensures ParseDecimal(Decimal(n)) == n
  {
    if n >= 10 {
      var s := Decimal(n);
      assert s[..|s| - 1] == Decimal(n / 10);
      DecimalRoundTrip(n / 10);
    }
  }

  // ---------------------------------------------------------------------------
  // get_tracks_by_vibes
  // ---------------------------------------------------------------------------

  /** What `get_tracks_by_vibes` hands to the database, if anything. */
  datatype Plan =
    | NoQuery
    | Query(sql: string, binds: seq<string>)

  // The three constants below, with the `IN` list and the count between
  // them, join into the literal of `src/database.rs:370-378` character for
  // character. Each is written as short pieces so that the verifier can
  // check them one at a time; a piece boundary has no meaning.

  /** The projection and the first table of the query. */
  const SelectFrom: string :=
    "\n            SELECT tp.track_id"
    + " AS id, tp.path AS path"
    + "\n            FROM"
    + " track_pointers AS tp"

  /** The joins, and the filter up to the opening parenthesis of the `IN` list. */
  const JoinWhere: string :=
    "\n            INNER JOIN"
    + " track_vibes AS tv ON"
    + " tp.track_id = tv.track_id"
    + "\n            INNER JOIN vibes"
    + " AS vb on tv.vibe_id ="
    + " vb.vibe_id"
    + "\n            WHERE vb.name IN ("

  /** From the closing parenthesis of the `IN` list to the `HAVING` constant. */
  const GroupHaving: string :=
    ")"
    + "\n            GROUP BY"
    + " tp.track_id, tp.path"
    + "\n            HAVING"
    + " COUNT(DISTINCT vb.name) = "

  /** The SQL text up to the opening parenthesis of the `IN` list. */
  const SelectHead: string := SelectFrom + JoinWhere

  /** The SQL text after the `HAVING` constant. */
  const Trailer: string := "\n            "

  /** None of the fixed text holds a `?`; each constant is shown piece by piece. */
  lemma SelectFromNoMark()
    ensures NoMark(SelectFrom)
  {
    assert NoMark("\n            SELECT tp.track_id");
    assert NoMark(" AS id, tp.path AS path");
    assert NoMark("\n            FROM");
    assert NoMark(" track_pointers AS tp");
  }

  lemma JoinWhereNoMark()
    ensures NoMark(JoinWhere)
  {
    assert NoMark("\n            INNER JOIN");
    assert NoMark(" track_vibes AS tv ON");
    assert NoMark(" tp.track_id = tv.track_id");
    assert NoMark("\n            INNER JOIN vibes");
    assert NoMark(" AS vb on tv.vibe_id =");
    assert NoMark(" vb.vibe_id");
    assert NoMark("\n            WHERE vb.name IN (");
  }

  lemma GroupHavingNoMark()
    ensures NoMark(GroupHaving)
  {
    assert NoMark(")");
    assert NoMark("\n            GROUP BY");
    assert NoMark(" tp.track_id, tp.path");
    assert NoMark("\n            HAVING");
    assert NoMark(" COUNT(DISTINCT vb.name) = ");
  }

  /**
    The `IN` list: one `?` per name, joined with commas, so `n` question
    marks and `n - 1` commas in `2n - 1` characters, and nothing at all for
    no names.
  */
  function Placeholders(names: seq<string>): (r: string)
    ensures Count('?', r) == |names|
    ensures |names| == 0 ==> r == ""
    ensures |names| > 0 ==> |r| == 2 * |names| - 1 && Count(',', r) == |names| - 1
  {
    if |names| > 0 then
      PlaceholderCounts(Marks(names));
      PlaceholderShape(Marks(names));
      Join(Marks(names), ",")
    else
      Join(Marks(names), ",")
  }

  /**
    Everything after the `IN` list, with `n` as the `HAVING` constant: it
    opens with the fixed middle text, ends with the fixed trailer, and holds
    no placeholder.
  */
  function HavingClause(n: nat): (r: string)
    ensures |r| > |GroupHaving| + |Trailer|
    ensures r[..|GroupHaving|] == GroupHaving
    ensures r[|r| - |Trailer|..] == Trailer
    ensures Count('?', r) == 0
  {
    var digits := Decimal(n);
    NoMarkInFixedText();
    CountAbsent('?', digits);
    MarkFree(GroupHaving, digits, Trailer);
    Slices(GroupHaving, digits, Trailer);
    GroupHaving + digits + Trailer
  }

  /**
    The `format!` of the query for `names`. It holds exactly one `?` per
    name, so it takes exactly as many binds as there are names.
  */
  function QueryText(names: seq<string>): (r: string)
    ensures Count('?', r) == |names|
  {
    PartsMarkCount(names);
    SelectHead + Placeholders(names) + HavingClause(|names|)
  }

  /** The fixed text contributes no placeholder. */
  lemma NoMarkInFixedText()
    ensures Count('?', SelectHead) == 0
    ensures Count('?', GroupHaving) == 0
    ensures Count('?', Trailer) == 0
  {
    SelectFromNoMark();
    JoinWhereNoMark();
    GroupHavingNoMark();
    assert NoMark(SelectHead);
    CountAbsent('?', SelectHead);
    CountAbsent('?', GroupHaving);
    CountAbsent('?', Trailer);
  }

  /** The `IN` list brings one `?` per name; the rest of the text brings none. */
  lemma PartsMarkCount(names: seq<string>)
    ensures Count('?', SelectHead + Placeholders(names) + HavingClause(|names|)) == |names|
  {
    var list := Placeholders(names);
    NoMarkInFixedText();
    CountConcat('?', SelectHead, list);
    CountConcat('?', SelectHead + list, HavingClause(|names|));
  }

  /** A comma-separated list of `n` question marks, read inside a larger text. */
  lemma ListAfterHead(head: string, list: string, tail: string, n: nat)
    requires n > 0 && |list| == 2 * n - 1
    requires forall k :: 0 <= k < |list| ==> list[k] == if k % 2 == 0 then '?' else ','
    ensures |head + list + tail| >= |head| + 2 * n - 1
    ensures forall k :: 0 <= k < 2 * n - 1 ==>
              (head + list + tail)[|head| + k] == if k % 2 == 0 then '?' else ','
  {
    Slices(head, list, tail);
  }

  /**
    Read by position, the query for a non-empty list of names has the `IN`
    list `?,?,…,?` right after the fixed head.
  */
  lemma QueryInList(names: seq<string>)
    requires |names| > 0
    ensures |QueryText(names)| >= |SelectHead| + 2 * |names| - 1
    ensures forall k :: 0 <= k < 2 * |names| - 1 ==>
              QueryText(names)[|SelectHead| + k] == if k % 2 == 0 then '?' else ','
  {
    PlaceholderShape(Marks(names));
    ListAfterHead(SelectHead, Placeholders(names), HavingClause(|names|), |names|);
  }

  /**
    The number after `HAVING COUNT(DISTINCT vb.name) = `, the text between
    the fixed middle part and the fixed trailer, reads back as `n`.
  */
  lemma HavingCountReadsBack(n: nat)
    ensures var clause := HavingClause(n);
            && |GroupHaving| < |clause| - |Trailer|
            && (forall i :: |GroupHaving| <= i < |clause| - |Trailer| ==> IsDigit(clause[i]))
            && ParseDecimal(clause[|GroupHaving|..|clause| - |Trailer|]) == n
  {
    DecimalRoundTrip(n);
    Slices(GroupHaving, Decimal(n), Trailer);
  }

  /** In the query, the clause after the `IN` list is the `HAVING` clause for the number of names. */
  lemma QueryHavingClause(names: seq<string>)
    requires |names| > 0
    ensures |QueryText(names)| >= |SelectHead| + 2 * |names| - 1
    ensures QueryText(names)[|SelectHead| + 2 * |names| - 1..] == HavingClause(|names|)
  {
    var list, clause := Placeholders(names), HavingClause(|names|);
    PlaceholderShape(Marks(names));
    Slices(SelectHead, list, clause);
    assert QueryText(names) == SelectHead + list + clause;
  }

  /**
    `get_tracks_by_vibes` up to the database call: with no names it returns
    at once without a query; otherwise it formats the query text and binds
    each name in turn.
  */
  method TracksByVibesPlan(names: seq<string>) returns (plan: Plan)
    ensures plan.NoQuery? <==> |names| == 0
    ensures plan.Query? ==> plan.binds == names && plan.sql == QueryText(names)
    ensures plan.Query? ==> Count('?', plan.sql) == |plan.binds|
  {
    if |names| == 0 {
      return NoQuery;
    }
    var binds: seq<string> := [];
    for i := 0 to |names|
      invariant binds == names[..i]
    {
      binds := binds + [names[i]];
    }
    plan := Query(QueryText(names), binds);
  }
}

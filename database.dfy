/** The relationship store: the `marriages` and `parents` tables and the
    operations MarriageBot's database connection runs against them
    (result normalisation, id generation, marrying and destroying a user). */
module Database {
  import opened Wrappers
  import opened Text

  /** The alphabet marriage ids are drawn from: 64 characters. */
  const RANDOM_CHARACTERS: string := "abcdefghijklmnopqrstuvwxyzABCDEFGHIJKLMNOPQRSTUVWXYZ1234567890-_"
  /** Every generated id has this many characters. */
  const TOKEN_LENGTH: nat := 11

  /** One row of the `marriages` table. */
  datatype MarriageRow = MarriageRow(marriageId: string, userId: int, partnerId: int, valid: bool, guildId: int)

  /** One row of the `parents` table. */
  datatype ParentRow = ParentRow(parentId: int, childId: int)

  /** What a query returns to its caller: a list of rows, or Python's `None`. */
  datatype Fetched<R> = Rows(rows: seq<R>) | NoRows

  /** Python truthiness of a query result: a non-empty list. */
  predicate Truthy<R>(x: Fetched<R>)
  {
    x.Rows? && x.rows != []
  }

  // ---------------------------------------------------------------------
  // Result normalisation (`DatabaseConnection.__call__`)
  // ---------------------------------------------------------------------

  /** True when the SQL text asks for rows back: it mentions `select` or
      `returning` in any letter case. */
  predicate AsksForRows(sql: string)
  {
    Contains(CaseFold(sql), "select") || Contains(CaseFold(sql), "returning")
  }

  /** The value a query hands back, given the rows the backend fetched. */
  function Normalise<R>(fetched: seq<R>, sql: string): (r: Fetched<R>)
    ensures fetched != [] ==> r == Rows(fetched)
    ensures fetched == [] && AsksForRows(sql) ==> r == Rows([])
    ensures fetched == [] && !AsksForRows(sql) ==> r == NoRows
    ensures Truthy(r) <==> fetched != []
    ensures r.Rows? ==> r.rows == fetched
  {
    if fetched != [] then Rows(fetched)
    else if AsksForRows(sql) then Rows([])
    else NoRows
  }

  /** Any spelling of `SELECT` in the statement, whatever its letter case,
      makes an empty fetch come back as the empty list rather than `None`. */
  lemma SelectInAnyCaseGivesList<R>(sql: string, keyword: string)
    requires Contains(sql, keyword) && CaseFold(keyword) == "select"
    ensures Normalise<R>([], sql) == Rows([])
  {
    ContainsFolded(sql, keyword);
  }

  // ---------------------------------------------------------------------
  // Id generation (`DatabaseConnection.make_id`)
  // ---------------------------------------------------------------------

  /** A stream of random picks as `random.choices` consumes them: each pick
      is an index into the alphabet (`floor(random() * 64)`). */
  ghost predicate DrawsValid(rng: seq<nat>)
  {
    forall i :: 0 <= i < |rng| ==> rng[i] < |RANDOM_CHARACTERS|
  }

  /** `random.choices(population, k=k)` driven by the picks `picks`. */
  function Choices(population: string, k: nat, picks: seq<nat>): (r: string)
    requires k <= |picks|
    requires forall i :: 0 <= i < k ==> picks[i] < |population|
    ensures |r| == k
    ensures forall i :: 0 <= i < k ==> r[i] in population
  {
    seq(k, i requires 0 <= i < k => population[picks[i]])
  }

  /** A token `make_id` can produce: 11 characters of the alphabet. */
  ghost predicate WellFormedToken(t: string)
  {
    |t| == TOKEN_LENGTH && forall i :: 0 <= i < |t| ==> t[i] in RANDOM_CHARACTERS
  }

  /** The rows of a column whose value equals `token` (the lookup
      `SELECT * FROM table WHERE id_field=$1`). */
  function Matching(column: seq<string>, token: string): (r: seq<string>)
    ensures r == [] <==> token !in column
    decreases |column|
  {
    if column == [] then []
    else (if column[0] == token then [column[0]] else []) + Matching(column[1..], token)
  }

  /** The token `make_id` returns when the random source yields `rng`:
      the first draw not already in the column, or `None` when the finite
      stream runs out first (`make_id` keeps drawing for ever). */
  ghost function FirstFresh(column: seq<string>, rng: seq<nat>): Option<string>
    requires DrawsValid(rng)
    decreases |rng|
  {
    if |rng| < TOKEN_LENGTH then None
    else
      var token := Choices(RANDOM_CHARACTERS, TOKEN_LENGTH, rng);
      if token !in column then Some(token) else FirstFresh(column, rng[TOKEN_LENGTH..])
  }

  /** Whatever `make_id` returns is a well-formed token not yet in the column. */
  lemma {:induction false} FirstFreshIsFreshToken(column: seq<string>, rng: seq<nat>)
    requires DrawsValid(rng)
    ensures FirstFresh(column, rng).Some? ==>
              WellFormedToken(FirstFresh(column, rng).value) && FirstFresh(column, rng).value !in column
    decreases |rng|
  {
    if |rng| >= TOKEN_LENGTH {
      var token := Choices(RANDOM_CHARACTERS, TOKEN_LENGTH, rng);
      if token in column {
        FirstFreshIsFreshToken(column, rng[TOKEN_LENGTH..]);
      }
    }
  }

  /** `make_id(table, id_field)`: draw 11 characters, look them up in the
      column, and draw again while the lookup returns rows. `column` holds
      the values of `id_field` in `table`. */
  method MakeId(table: string, idField: string, column: seq<string>, rng: seq<nat>) returns (id: Option<string>)
    requires DrawsValid(rng)
    ensures id == FirstFresh(column, rng)
    ensures id.Some? ==> WellFormedToken(id.value) && id.value !in column
  {
    FirstFreshIsFreshToken(column, rng);
    var sql := "SELECT * FROM " + table + " WHERE " + idField + "=$1";
    var rest := rng;
    while |rest| >= TOKEN_LENGTH
      invariant DrawsValid(rest)
      invariant FirstFresh(column, rest) == FirstFresh(column, rng)
      decreases |rest|
    {
      var idNumber := Choices(RANDOM_CHARACTERS, TOKEN_LENGTH, rest);
      var x := Normalise(Matching(column, idNumber), sql);
      if !Truthy(x) {
        return Some(idNumber);
      }
      rest := rest[TOKEN_LENGTH..];
    }
    return None;
  }

  // ---------------------------------------------------------------------
  // Table semantics of `destroy`
  // ---------------------------------------------------------------------

  /** The `WHERE user_id=$1 OR partner_id=$1` condition. */
  predicate Mentions(r: MarriageRow, u: int)
  {
    r.userId == u || r.partnerId == u
  }

  /** The `WHERE child_id=$1 OR parent_id=$1` condition. */
  predicate Links(p: ParentRow, u: int)
  {
    p.childId == u || p.parentId == u
  }

  /** `UPDATE marriages SET valid=False WHERE user_id=$1 OR partner_id=$1`. */
  function Invalidate(rows: seq<MarriageRow>, u: int): (r: seq<MarriageRow>)
    ensures |r| == |rows|
    ensures forall i :: 0 <= i < |r| && Mentions(r[i], u) ==> !r[i].valid
    ensures forall i :: 0 <= i < |rows| && !Mentions(rows[i], u) ==> r[i] == rows[i]
    ensures forall i :: 0 <= i < |rows| ==> r[i].(valid := rows[i].valid) == rows[i]
  {
    seq(|rows|, i requires 0 <= i < |rows| => if Mentions(rows[i], u) then rows[i].(valid := false) else rows[i])
  }

  /** `DELETE FROM parents WHERE child_id=$1 OR parent_id=$1`. */
  function Unlink(rows: seq<ParentRow>, u: int): (r: seq<ParentRow>)
    ensures forall p :: p in r <==> p in rows && !Links(p, u)
    ensures |r| <= |rows|
    decreases |rows|
  {
    if rows == [] then []
    else (if Links(rows[0], u) then [] else [rows[0]]) + Unlink(rows[1..], u)
  }

  /** Deletion works row by row: the kept rows of a concatenation are the
      kept rows of each part, in order. */
  lemma {:induction false} UnlinkDistributes(xs: seq<ParentRow>, ys: seq<ParentRow>, u: int)
    ensures Unlink(xs + ys, u) == Unlink(xs, u) + Unlink(ys, u)
    decreases |xs|
  {
    if xs != [] {
      var head := if Links(xs[0], u) then [] else [xs[0]];
      assert (xs + ys)[0] == xs[0];
      assert (xs + ys)[1..] == xs[1..] + ys;
      UnlinkDistributes(xs[1..], ys, u);
      calc {
        Unlink(xs + ys, u);
        head + Unlink(xs[1..] + ys, u);
        head + (Unlink(xs[1..], u) + Unlink(ys, u));
        (head + Unlink(xs[1..], u)) + Unlink(ys, u);
        Unlink(xs, u) + Unlink(ys, u);
      }
    } else {
      assert xs + ys == ys;
    }
  }

  /** Rows not linked to `u` are all kept, in their original order. */
  lemma {:induction false} UnlinkKeepsUnrelated(rows: seq<ParentRow>, u: int)
    requires forall i :: 0 <= i < |rows| ==> !Links(rows[i], u)
    ensures Unlink(rows, u) == rows
    decreases |rows|
  {
    if rows != [] {
      UnlinkKeepsUnrelated(rows[1..], u);
    }
  }

  // ---------------------------------------------------------------------
  // Partner symmetry of the marriages table
  // ---------------------------------------------------------------------

  /** The same marriage seen from the other partner. */
  function Mirror(r: MarriageRow): MarriageRow
  {
    r.(userId := r.partnerId, partnerId := r.userId)
  }

  /** Row `i` has its mirrored row at another position. */
  ghost predicate HasMirror(rows: seq<MarriageRow>, i: int)
    requires 0 <= i < |rows|
  {
    exists j :: 0 <= j < |rows| && j != i && rows[j] == Mirror(rows[i])
  }

  /** Every valid marriage row has its mirrored row. */
  ghost predicate Mirrored(rows: seq<MarriageRow>)
  {
    forall i {:trigger HasMirror(rows, i)} :: 0 <= i < |rows| && rows[i].valid ==> HasMirror(rows, i)
  }

  /** The partners recorded for `m` by valid rows. */
  ghost function ValidPartners(rows: seq<MarriageRow>, m: int): set<int>
  {
    set i | 0 <= i < |rows| && rows[i].valid && rows[i].userId == m :: rows[i].partnerId
  }

  /** In a mirrored table the partner relation is symmetric. */
  lemma PartnerSymmetry(rows: seq<MarriageRow>, a: int, b: int)
    requires Mirrored(rows)
    ensures b in ValidPartners(rows, a) <==> a in ValidPartners(rows, b)
  {
    forall x, y | y in ValidPartners(rows, x) ensures x in ValidPartners(rows, y) {
      var i :| 0 <= i < |rows| && rows[i].valid && rows[i].userId == x && rows[i].partnerId == y;
      assert HasMirror(rows, i);
      var j :| 0 <= j < |rows| && j != i && rows[j] == Mirror(rows[i]);
      assert rows[j].valid && rows[j].userId == y && rows[j].partnerId == x;
    }
  }

  /** `destroy` keeps the table mirrored: a row and its mirror mention the
      same users, so they are invalidated together. */
  lemma InvalidateKeepsMirrored(rows: seq<MarriageRow>, u: int)
    requires Mirrored(rows)
    ensures Mirrored(Invalidate(rows, u))
  {
    var r := Invalidate(rows, u);
    forall i | 0 <= i < |r| && r[i].valid ensures HasMirror(r, i) {
      assert !Mentions(rows[i], u) && r[i] == rows[i];
      assert HasMirror(rows, i);
      var j :| 0 <= j < |rows| && j != i && rows[j] == Mirror(rows[i]);
      assert r[j] == rows[j];
    }
  }

  /** After `destroy(u)` nobody has `u` as a valid partner and `u` has none. */
  lemma InvalidateLeavesNoPartner(rows: seq<MarriageRow>, u: int, m: int)
    ensures u !in ValidPartners(Invalidate(rows, u), m)
    ensures ValidPartners(Invalidate(rows, u), u) == {}
  {
  }

  // ---------------------------------------------------------------------
  // Table semantics of `marry`
  // ---------------------------------------------------------------------

  /** The `marriage_id` column of the marriages table. */
  function MarriageIds(rows: seq<MarriageRow>): (ids: seq<string>)
    ensures |ids| == |rows|
    ensures forall i :: 0 <= i < |rows| ==> ids[i] == rows[i].marriageId
  {
    seq(|rows|, i requires 0 <= i < |rows| => rows[i].marriageId)
  }

  /** The two mirrored rows of a marriage between `a` and `b`. */
  function Pair(id: string, a: int, b: int, guildId: int): seq<MarriageRow>
  {
    [MarriageRow(id, a, b, true, guildId), MarriageRow(id, b, a, true, guildId)]
  }

  /** The rows `marry(a, b, guildId, marriageId)` appends, drawing ids from `rng`. */
  ghost function Inserted(rows: seq<MarriageRow>, a: int, b: int, guildId: int,
                          marriageId: Option<string>, rng: seq<nat>): seq<MarriageRow>
    requires DrawsValid(rng)
  {
    match marriageId
    case Some(mid) => [MarriageRow(mid, a, b, true, guildId)]
    case None =>
      match FirstFresh(MarriageIds(rows), rng)
      case None => []
      case Some(id) => Pair(id, a, b, guildId)
  }

  /** Appending a marriage pair keeps the table mirrored and makes the two
      users each other's valid partners. */
  lemma PairKeepsMirrored(rows: seq<MarriageRow>, id: string, a: int, b: int, guildId: int)
    requires Mirrored(rows)
    ensures Mirrored(rows + Pair(id, a, b, guildId))
    ensures b in ValidPartners(rows + Pair(id, a, b, guildId), a)
    ensures a in ValidPartners(rows + Pair(id, a, b, guildId), b)
  {
    var r := rows + Pair(id, a, b, guildId);
    var n := |rows|;
    forall i | 0 <= i < |r| && r[i].valid ensures HasMirror(r, i) {
      if i < n {
        assert HasMirror(rows, i);
        var j :| 0 <= j < n && j != i && rows[j] == Mirror(rows[i]);
        assert r[j] == rows[j];
      } else if i == n {
        assert r[n + 1] == Mirror(r[n]);
      } else {
        assert r[n] == Mirror(r[n + 1]);
      }
    }
    assert r[n].valid && r[n].userId == a && r[n].partnerId == b;
    assert r[n + 1].valid && r[n + 1].userId == b && r[n + 1].partnerId == a;
  }

  /** The id of a new marriage names exactly its two new rows. */
  lemma {:induction false} FreshIdNamesOnlyNewPair(rows: seq<MarriageRow>, a: int, b: int, guildId: int, rng: seq<nat>)
    requires DrawsValid(rng)
    requires FirstFresh(MarriageIds(rows), rng).Some?
    ensures var id := FirstFresh(MarriageIds(rows), rng).value;
            var r := rows + Pair(id, a, b, guildId);
            forall k :: 0 <= k < |r| ==> (r[k].marriageId == id <==> k >= |rows|)
  {
    var id := FirstFresh(MarriageIds(rows), rng).value;
    FirstFreshIsFreshToken(MarriageIds(rows), rng);
    var r := rows + Pair(id, a, b, guildId);
    forall k | 0 <= k < |rows| ensures r[k].marriageId != id {
      assert MarriageIds(rows)[k] == rows[k].marriageId;
    }
  }

  /** The state between the two inserts of `marry` is one-sided: after the
      first insert under a fresh id, that row has no mirror, so a crash
      there leaves a half marriage. */
  lemma HalfMarriageIsOneSided(rows: seq<MarriageRow>, id: string, a: int, b: int, guildId: int)
    requires id !in MarriageIds(rows)
    ensures !Mirrored(rows + [MarriageRow(id, a, b, true, guildId)])
  {
    var r := rows + [MarriageRow(id, a, b, true, guildId)];
    assert r[|rows|].valid && !HasMirror(r, |rows|);
  }

  /** A `destroy(a)` that runs between the two inserts of `marry(a, b)`
      leaves the second row valid and without a mirror. */
  lemma DestroyBetweenInsertsBreaksMirror(rows: seq<MarriageRow>, id: string, a: int, b: int, guildId: int)
    requires id !in MarriageIds(rows)
    ensures !Mirrored(Invalidate(rows + [MarriageRow(id, a, b, true, guildId)], a) + [MarriageRow(id, b, a, true, guildId)])
  {
    var r := Invalidate(rows + [MarriageRow(id, a, b, true, guildId)], a) + [MarriageRow(id, b, a, true, guildId)];
    assert r[|rows| + 1].valid && !HasMirror(r, |rows| + 1);
  }

  // ---------------------------------------------------------------------
  // The connection object
  // ---------------------------------------------------------------------

  /** A database connection together with the two tables it reads and
      writes. Statements are applied in place to the `seq` fields. */
  class DatabaseConnection {
    var marriages: seq<MarriageRow>
    var parents: seq<ParentRow>

    constructor (marriages: seq<MarriageRow>, parents: seq<ParentRow>)
      ensures this.marriages == marriages && this.parents == parents
    {
      this.marriages := marriages;
      this.parents := parents;
    }

    /** `destroy(user_id)`: soft-delete every marriage of the user and
        hard-delete every parent link of the user. */
    method Destroy(userId: int)
      modifies this
      ensures marriages == Invalidate(old(marriages), userId)
      ensures parents == Unlink(old(parents), userId)
      ensures old(Mirrored(marriages)) ==> Mirrored(marriages)
    {
      if Mirrored(marriages) {
        InvalidateKeepsMirrored(marriages, userId);
      }
      marriages := Invalidate(marriages, userId);
      parents := Unlink(parents, userId);
    }

    /** `marry(instigator, target, guild_id, marriage_id)`. Without an id it
        draws a fresh one, inserts the row, and calls itself once with the
        users swapped and that id; with an id it inserts one row. When the
        finite random stream runs out, nothing is inserted. */
    method Marry(instigator: int, target: int, guildId: int, marriageId: Option<string>, rng: seq<nat>)
      requires DrawsValid(rng)
      modifies this
      decreases if marriageId.None? then 1 else 0
      ensures parents == old(parents)
      ensures marriages == old(marriages) + Inserted(old(marriages), instigator, target, guildId, marriageId, rng)
      ensures marriageId.None? && old(Mirrored(marriages)) ==> Mirrored(marriages)
    {
      var idNumber: string;
      if marriageId.None? {
        var drawn := MakeId("marriages", "marriage_id", MarriageIds(marriages), rng);
        if drawn.None? {
          return;
        }
        idNumber := drawn.value;
        if Mirrored(marriages) {
          PairKeepsMirrored(marriages, idNumber, instigator, target, guildId);
        }
      } else {
        idNumber := marriageId.value;
      }
      ghost var before := marriages;
      marriages := marriages + [MarriageRow(idNumber, instigator, target, true, guildId)];
      if marriageId.None? {
        Marry(target, instigator, guildId, Some(idNumber), rng);
        assert marriages == before + Pair(idNumber, instigator, target, guildId);
      }
    }
  }
}

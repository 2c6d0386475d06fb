/** Refresh-token rotation: a chain of tokens per login, killed as a whole when a used token comes back. */
module TokenFamilies {
  import opened Outcome

  type Id = string

  /** A ledger row; the hash stands for the token, since hashing is injective. */
  datatype Row = Row(token: Id, user: Id, family: Id, revoked: bool)

  /** The user row the rotation reads in its own transaction. */
  datatype User = User(isActive: bool, lockedUntil: Option<int>)

  predicate IsBlocked(user: User, now: int) {
    !user.isActive || (user.lockedUntil.Some? && user.lockedUntil.value > now)
  }

  datatype Status = Invalid | Replayed | AccountBlocked | Rotated(user: Id)

  function Find(rows: seq<Row>, token: Id): Option<Row> {
    if rows == [] then None
    else if rows[0].token == token then Some(rows[0])
    else Find(rows[1..], token)
  }

  function RevokeRow(family: Id, r: Row): Row { if r.family == family then r.(revoked := true) else r }

  function RevokeFamily(rows: seq<Row>, family: Id): (out: seq<Row>)
    ensures |out| == |rows| && forall i :: 0 <= i < |rows| ==> out[i] == RevokeRow(family, rows[i])
  {
    seq(|rows|, i requires 0 <= i < |rows| => RevokeRow(family, rows[i]))
  }

  function RevokeOne(token: Id, r: Row): Row { if r.token == token then r.(revoked := true) else r }

  function RevokeToken(rows: seq<Row>, token: Id): (out: seq<Row>)
    ensures |out| == |rows| && forall i :: 0 <= i < |rows| ==> out[i] == RevokeOne(token, rows[i])
  {
    seq(|rows|, i requires 0 <= i < |rows| => RevokeOne(token, rows[i]))
  }

  /** One rotation. The replacement carries the family the caller names, not the one of the row. */
  function Rotate(rows: seq<Row>, presented: Id, replacement: Id, family: Id, user: Option<User>, now: int)
    : (seq<Row>, Status)
  {
    match Find(rows, presented)
    case None => (rows, Invalid)
    case Some(row) =>
      if row.revoked then (RevokeFamily(rows, row.family), Replayed)
      else if user.None? then (rows, Invalid)
      else if IsBlocked(user.value, now) then (rows, AccountBlocked)
      else (RevokeToken(rows, presented) + [Row(replacement, row.user, family, false)], Rotated(row.user))
  }

  class RefreshTokenStore {
    var rows: seq<Row>

    constructor ()
      ensures rows == []
    {
      rows := [];
    }

    method Store(user: Id, token: Id, family: Id)
      modifies this
      ensures rows == old(rows) + [Row(token, user, family, false)]
    {
      rows := rows + [Row(token, user, family, false)];
    }

    method RotateToken(token: Id, replacement: Id, family: Id, user: Option<User>, now: int) returns (status: Status)
      modifies this
      ensures (rows, status) == Rotate(old(rows), token, replacement, family, user, now)
    {
      var found := Find(rows, token);
      if found.None? {
        return Invalid;
      }
      var row := found.value;
      if row.revoked {
        UpdateFamily(row.family);
        return Replayed;
      }
      if user.None? {
        return Invalid;
      }
      var locked := user.value.lockedUntil.Some? && user.value.lockedUntil.value > now;
      if !user.value.isActive || locked {
        return AccountBlocked;
      }
      UpdateToken(token);
      rows := rows + [Row(replacement, row.user, family, false)];
      return Rotated(row.user);
    }

    /** Sets every still-active row of the family to revoked. */
    method UpdateFamily(family: Id)
      modifies this
      ensures rows == RevokeFamily(old(rows), family)
    {
      var i := 0;
      ghost var before := rows;
      while i < |rows|
        invariant i <= |rows| == |before|
        invariant forall k :: 0 <= k < |rows| ==> rows[k] == if k < i then RevokeRow(family, before[k]) else before[k]
      {
        if rows[i].family == family && !rows[i].revoked {
          rows := rows[i := rows[i].(revoked := true)];
        }
        i := i + 1;
      }
    }

    method UpdateToken(token: Id)
      modifies this
      ensures rows == RevokeToken(old(rows), token)
    {
      var i := 0;
      ghost var before := rows;
      while i < |rows|
        invariant i <= |rows| == |before|
        invariant forall k :: 0 <= k < |rows| ==> rows[k] == if k < i then RevokeOne(token, before[k]) else before[k]
      {
        if rows[i].token == token {
          rows := rows[i := rows[i].(revoked := true)];
        }
        i := i + 1;
      }
    }
  }

  // ------------------------------------------------------- what a ledger keeps

  ghost predicate UniqueTokens(rows: seq<Row>) {
    forall i, j :: 0 <= i < j < |rows| ==> rows[i].token != rows[j].token
  }

  /** At most one live token per family: only the newest row of a family may be live. */
  ghost predicate OneLive(rows: seq<Row>) {
    forall i, j :: 0 <= i < j < |rows| && rows[i].family == rows[j].family ==> rows[i].revoked
  }

  ghost predicate OneUser(rows: seq<Row>) {
    forall i, j :: 0 <= i < j < |rows| && rows[i].family == rows[j].family ==> rows[i].user == rows[j].user
  }

  ghost predicate LedgerInv(rows: seq<Row>) {
    UniqueTokens(rows) && OneLive(rows) && OneUser(rows)
  }

  ghost predicate Dead(rows: seq<Row>, family: Id) {
    forall r :: r in rows && r.family == family ==> r.revoked
  }

  ghost predicate OwnedBy(rows: seq<Row>, family: Id, user: Id) {
    forall r :: r in rows && r.family == family ==> r.user == user
  }

  lemma {:induction false} FindRow(rows: seq<Row>, token: Id)
    ensures Find(rows, token).Some? ==> Find(rows, token).value in rows && Find(rows, token).value.token == token
    ensures Find(rows, token).None? ==> forall r :: r in rows ==> r.token != token
  {
    if rows != [] && rows[0].token != token {
      FindRow(rows[1..], token);
    }
  }

  lemma FindIndex(rows: seq<Row>, token: Id) returns (i: nat)
    requires Find(rows, token).Some?
    ensures i < |rows| && rows[i] == Find(rows, token).value && rows[i].token == token
  {
    FindRow(rows, token);
    i :| 0 <= i < |rows| && rows[i] == Find(rows, token).value;
  }

  lemma RevokedAfter(rows: seq<Row>, token: Id, family: Id)
    requires UniqueTokens(rows)
    ensures UniqueTokens(RevokeToken(rows, token))
    ensures forall r :: r in RevokeToken(rows, token) ==> r.token == token ==> r.revoked
    ensures Dead(RevokeToken(rows, token), family) <==>
            forall r :: r in rows && r.family == family && r.token != token ==> r.revoked
    ensures forall user :: OwnedBy(RevokeToken(rows, token), family, user) <==> OwnedBy(rows, family, user)
  {
    var out := RevokeToken(rows, token);
    forall r | r in out ensures exists q :: q in rows && r == RevokeOne(token, q) {
      var i :| 0 <= i < |out| && out[i] == r;
      assert rows[i] in rows;
    }
    forall r | r in rows ensures RevokeOne(token, r) in out {
      var i :| 0 <= i < |rows| && rows[i] == r;
      assert out[i] in out;
    }
    if Dead(out, family) {
      forall r | r in rows && r.family == family && r.token != token ensures r.revoked {
        assert RevokeOne(token, r) in out;
      }
    }
    forall user ensures OwnedBy(out, family, user) <==> OwnedBy(rows, family, user) {
      if OwnedBy(out, family, user) {
        forall r | r in rows && r.family == family ensures r.user == user {
          assert RevokeOne(token, r) in out;
        }
      }
    }
  }

  /** Appending a live token is sound exactly when its family is dead and has the same owner. */
  lemma AppendSound(rows: seq<Row>, r: Row)
    requires LedgerInv(rows) && !r.revoked && forall q :: q in rows ==> q.token != r.token
    ensures LedgerInv(rows + [r]) <==> Dead(rows, r.family) && OwnedBy(rows, r.family, r.user)
  {
    var out := rows + [r];
    if LedgerInv(out) {
      forall q | q in rows && q.family == r.family ensures q.revoked && q.user == r.user {
        var i :| 0 <= i < |rows| && rows[i] == q;
        assert out[i].family == out[|rows|].family;
      }
    } else if Dead(rows, r.family) && OwnedBy(rows, r.family, r.user) {
      forall i, j | 0 <= i < j < |out| ensures out[i].token != out[j].token {
        assert out[i] in rows;
      }
      forall i, j | 0 <= i < j < |out| && out[i].family == out[j].family
        ensures out[i].revoked && out[i].user == out[j].user
      {
        assert out[i] in rows;
      }
    }
  }

  lemma RevokeTokenKeeps(rows: seq<Row>, token: Id)
    requires LedgerInv(rows)
    ensures LedgerInv(RevokeToken(rows, token))
  {
  }

  /** Of a family with a live token, that token is the only live one and its owner owns the family. */
  lemma LiveTokenIsOnly(rows: seq<Row>, i: nat)
    requires LedgerInv(rows) && i < |rows| && !rows[i].revoked
    ensures forall r :: r in rows && r.family == rows[i].family && r.token != rows[i].token ==> r.revoked
    ensures OwnedBy(rows, rows[i].family, rows[i].user)
  {
    forall r | r in rows && r.family == rows[i].family
      ensures (r.token != rows[i].token ==> r.revoked) && r.user == rows[i].user
    {
      var j :| 0 <= j < |rows| && rows[j] == r;
    }
  }

  /** Whether the user may be given a token now. */
  predicate Usable(user: Option<User>, now: int) { user.Some? && !IsBlocked(user.value, now) }

  /**
   * What a rotation answers and writes. It rotates exactly a live token of an active, unlocked user: that
   * row is revoked and one live row of the same user appended. A revoked token takes its whole family
   * along. Every other answer leaves the ledger as it is.
   */
  lemma RotateExactlyWhen(rows: seq<Row>, row: Row, replacement: Id, family: Id, user: Option<User>, now: int)
    requires UniqueTokens(rows) && row in rows
    ensures var (out, status) := Rotate(rows, row.token, replacement, family, user, now);
            var blocked := user.Some? && (!user.value.isActive
                                          || (user.value.lockedUntil.Some? && user.value.lockedUntil.value > now));
            && (status == Replayed <==> row.revoked)
            && (status == Invalid <==> !row.revoked && user.None?)
            && (status == AccountBlocked <==> !row.revoked && blocked)
            && (status.Rotated? <==> !row.revoked && user.Some? && !blocked)
            && (status.Rotated? ==>
                  && status.user == row.user && |out| == |rows| + 1
                  && out[|rows|] == Row(replacement, row.user, family, false)
                  && forall i :: 0 <= i < |rows| ==>
                       out[i] == Row(rows[i].token, rows[i].user, rows[i].family,
                                     rows[i].revoked || rows[i].token == row.token))
            && (status.Replayed? ==>
                  && |out| == |rows|
                  && forall i :: 0 <= i < |rows| ==>
                       out[i] == Row(rows[i].token, rows[i].user, rows[i].family,
                                     rows[i].revoked || rows[i].family == row.family))
            && (status.Invalid? || status.AccountBlocked? ==> out == rows)
  {
    FindRow(rows, row.token);
    var i :| 0 <= i < |rows| && rows[i] == row;
    var found := Find(rows, row.token).value;
    var j :| 0 <= j < |rows| && rows[j] == found;
  }

  /** A token without a row is invalid and changes nothing. */
  lemma UnknownTokenIsInvalid(rows: seq<Row>, presented: Id, replacement: Id, family: Id, user: Option<User>, now: int)
    requires forall r :: r in rows ==> r.token != presented
    ensures Rotate(rows, presented, replacement, family, user, now) == (rows, Invalid)
  {
    FindRow(rows, presented);
  }

  /**
   * A successful rotation keeps the families sound exactly when the family the caller names is the
   * token's own, or one without live tokens that the same user owns.
   */
  lemma RotationSoundExactlyWhen(rows: seq<Row>, presented: Id, replacement: Id, family: Id, user: Option<User>,
                                 now: int)
    requires LedgerInv(rows) && (forall q :: q in rows ==> q.token != replacement)
    requires Rotate(rows, presented, replacement, family, user, now).1.Rotated?
    ensures LedgerInv(Rotate(rows, presented, replacement, family, user, now).0) <==>
              var row := Find(rows, presented).value;
              family == row.family || (Dead(rows, family) && OwnedBy(rows, family, row.user))
  {
    var i := FindIndex(rows, presented);
    var row := rows[i];
    RevokeTokenKeeps(rows, presented);
    RevokedFresh(rows, presented, replacement);
    AppendSound(RevokeToken(rows, presented), Row(replacement, row.user, family, false));
    RevokedAfter(rows, presented, family);
    DeadAfter(rows, i, family);
    LiveTokenIsOnly(rows, i);
  }

  lemma RevokedFresh(rows: seq<Row>, presented: Id, replacement: Id)
    requires forall q :: q in rows ==> q.token != replacement
    ensures forall q :: q in RevokeToken(rows, presented) ==> q.token != replacement
  {
    var revoked := RevokeToken(rows, presented);
    forall q | q in revoked ensures q.token != replacement {
      var k :| 0 <= k < |revoked| && revoked[k] == q;
      assert rows[k] in rows;
    }
  }

  /** Taking the live token out of a family leaves exactly its own family dead, besides those that were. */
  lemma DeadAfter(rows: seq<Row>, i: nat, family: Id)
    requires LedgerInv(rows) && i < |rows| && !rows[i].revoked
    ensures (forall r :: r in rows && r.family == family && r.token != rows[i].token ==> r.revoked) <==>
            family == rows[i].family || Dead(rows, family)
  {
    LiveTokenIsOnly(rows, i);
    forall r | r in rows && r.token == rows[i].token ensures r == rows[i] {
      var j :| 0 <= j < |rows| && rows[j] == r;
    }
  }

  /** Naming another family breaks the ledger: two live tokens in one family. */
  lemma WrongFamilyBreaks()
    ensures var rows := [Row("t1", "u", "f", false), Row("t2", "v", "g", false)];
            LedgerInv(rows) && !LedgerInv(Rotate(rows, "t1", "t3", "g", Some(User(true, None)), 0).0)
  {
    var rows := [Row("t1", "u", "f", false), Row("t2", "v", "g", false)];
    assert Find(rows, "t1") == Some(rows[0]);
    var out := Rotate(rows, "t1", "t3", "g", Some(User(true, None)), 0).0;
    assert out[1].family == out[2].family && !out[1].revoked;
  }

  // ------------------------------------------------------------ engine runs

  /** The signed claims of a token: they cannot be altered, so a presented token names its own family. */
  datatype Claims = Claims(user: Id, family: Id)

  datatype Entry = Entry(token: Id, family: Id, status: Status)

  datatype State = State(rows: seq<Row>, issued: map<Id, Claims>, log: seq<Entry>)

  datatype Action =
    | Login(user: Id, token: Id, family: Id)
    | Refresh(presented: Id, replacement: Id, account: Option<User>, now: int)

  predicate FamilyUsed(rows: seq<Row>, family: Id) { exists r :: r in rows && r.family == family }

  /** Login starts a family; a refresh with a verified token rotates within the family of its claims. */
  function Step(s: State, a: Action): Option<State> {
    match a
    case Login(user, token, family) =>
      if token in s.issued || FamilyUsed(s.rows, family) then None
      else Some(State(s.rows + [Row(token, user, family, false)], s.issued[token := Claims(user, family)], s.log))
    case Refresh(presented, replacement, user, now) =>
      if presented !in s.issued || replacement in s.issued then None
      else
        var claims := s.issued[presented];
        var (rows, status) := Rotate(s.rows, presented, replacement, claims.family, user, now);
        Some(State(rows,
                   if status.Rotated? then s.issued[replacement := Claims(claims.user, claims.family)] else s.issued,
                   s.log + [Entry(presented, claims.family, status)]))
  }

  const Empty := State([], map[], [])

  function Exec(s: State, actions: seq<Action>): Option<State>
    decreases |actions|
  {
    if actions == [] then Some(s)
    else match Step(s, actions[0])
      case None => None
      case Some(next) => Exec(next, actions[1..])
  }

  /** Every ledger row was issued with matching claims, and every issued token has its row. */
  ghost predicate IssuedMatch(s: State) {
    && (forall r :: r in s.rows ==> r.token in s.issued && s.issued[r.token] == Claims(r.user, r.family))
    && (forall t :: t in s.issued ==> Find(s.rows, t).Some?)
  }

  /** A family on which a used token was presented has no live token left, and a used token stays used. */
  ghost predicate LogInv(s: State) {
    && (forall e :: e in s.log ==> FamilyUsed(s.rows, e.family) && e.token in s.issued)
    && (forall e :: e in s.log && e.status.Replayed? ==> Dead(s.rows, e.family))
    && (forall e :: e in s.log && e.status.Rotated? ==> forall r :: r in s.rows && r.token == e.token ==> r.revoked)
    && (forall i, j :: 0 <= i < j < |s.log| && s.log[i].status.Replayed? && s.log[i].family == s.log[j].family ==>
        !s.log[j].status.Rotated?)
    && (forall i, j :: 0 <= i < j < |s.log| && s.log[i].token == s.log[j].token && s.log[i].status.Rotated? ==>
        !s.log[j].status.Rotated?)
  }

  ghost predicate Inv(s: State) {
    LedgerInv(s.rows) && IssuedMatch(s) && LogInv(s)
  }

  lemma FamilyMember(rows: seq<Row>, r: Row)
    requires r in rows
    ensures FamilyUsed(rows, r.family)
  {
  }

  lemma {:induction false} FindSnoc(rows: seq<Row>, r: Row, token: Id)
    ensures Find(rows + [r], token)
            == if Find(rows, token).Some? then Find(rows, token) else if r.token == token then Some(r) else None
  {
    if rows == [] {
      assert [r][1..] == [];
    } else {
      assert (rows + [r])[1..] == rows[1..] + [r];
      FindSnoc(rows[1..], r, token);
    }
  }

  lemma {:induction false} FindAgain(rows: seq<Row>, out: seq<Row>, token: Id)
    requires |out| == |rows| && forall i :: 0 <= i < |rows| ==> out[i].token == rows[i].token
    ensures Find(out, token).Some? <==> Find(rows, token).Some?
  {
    if rows != [] && rows[0].token != token {
      FindAgain(rows[1..], out[1..], token);
    }
  }

  /** Rows that differ only in being revoked. */
  ghost predicate Revoking(rows: seq<Row>, out: seq<Row>) {
    |out| == |rows| && forall i :: 0 <= i < |rows| ==> out[i] == rows[i] || out[i] == rows[i].(revoked := true)
  }

  lemma RevokingKeeps(s: State, out: seq<Row>)
    requires Inv(s) && Revoking(s.rows, out)
    ensures Inv(s.(rows := out))
    ensures forall f :: FamilyUsed(out, f) <==> FamilyUsed(s.rows, f)
  {
    RevokingMembers(s.rows, out);
    forall t | t in s.issued ensures Find(out, t).Some? {
      FindAgain(s.rows, out, t);
    }
    forall f ensures FamilyUsed(out, f) <==> FamilyUsed(s.rows, f) {
      RevokingFamilies(s.rows, out, f);
    }
  }

  lemma RevokingMembers(rows: seq<Row>, out: seq<Row>)
    requires Revoking(rows, out)
    ensures forall r :: r in out ==> exists q :: q in rows && (r == q || r == q.(revoked := true))
  {
    forall r | r in out ensures exists q :: q in rows && (r == q || r == q.(revoked := true)) {
      var i :| 0 <= i < |out| && out[i] == r;
      assert rows[i] in rows;
    }
  }

  lemma RevokingFamilies(rows: seq<Row>, out: seq<Row>, f: Id)
    requires Revoking(rows, out)
    ensures FamilyUsed(out, f) <==> FamilyUsed(rows, f)
  {
    if FamilyUsed(rows, f) {
      var r :| r in rows && r.family == f;
      var i :| 0 <= i < |rows| && rows[i] == r;
      assert out[i] in out;
    }
    if FamilyUsed(out, f) {
      var r :| r in out && r.family == f;
      var i :| 0 <= i < |out| && out[i] == r;
      assert rows[i] in rows;
    }
  }

  /** Appending a fresh live token to a dead or new family that nobody replayed. */
  lemma AppendKeeps(s: State, r: Row)
    requires Inv(s) && r.token !in s.issued && !r.revoked
    requires Dead(s.rows, r.family) && OwnedBy(s.rows, r.family, r.user)
    requires forall e :: e in s.log && e.status.Replayed? ==> e.family != r.family
    ensures Inv(s.(rows := s.rows + [r], issued := s.issued[r.token := Claims(r.user, r.family)]))
  {
    var n := s.(rows := s.rows + [r], issued := s.issued[r.token := Claims(r.user, r.family)]);
    AppendSound(s.rows, r);
    forall t | t in n.issued ensures Find(n.rows, t).Some? {
      FindSnoc(s.rows, r, t);
    }
    AppendLog(s, n, r);
  }

  lemma AppendLog(s: State, n: State, r: Row)
    requires LogInv(s) && n.rows == s.rows + [r] && n.log == s.log && r.token !in s.issued
    requires n.issued == s.issued[r.token := Claims(r.user, r.family)]
    requires forall e :: e in s.log && e.status.Replayed? ==> e.family != r.family
    ensures LogInv(n)
  {
    forall e | e in n.log ensures FamilyUsed(n.rows, e.family) {
      var q :| q in s.rows && q.family == e.family;
      assert q in n.rows;
    }
  }

  /** What a new log entry must respect. */
  lemma LogKeeps(s: State, e: Entry)
    requires Inv(s) && FamilyUsed(s.rows, e.family) && e.token in s.issued
    requires e.status.Replayed? ==> Dead(s.rows, e.family)
    requires e.status.Rotated? ==> forall r :: r in s.rows && r.token == e.token ==> r.revoked
    requires e.status.Rotated? ==> forall x :: x in s.log && x.status.Replayed? ==> x.family != e.family
    requires e.status.Rotated? ==> forall x :: x in s.log && x.status.Rotated? ==> x.token != e.token
    ensures Inv(s.(log := s.log + [e]))
  {
    var log := s.log + [e];
    forall i, j | 0 <= i < j < |log| && log[i].status.Replayed? && log[i].family == log[j].family
      ensures !log[j].status.Rotated?
    {
      assert log[i] in s.log;
    }
    forall i, j | 0 <= i < j < |log| && log[i].token == log[j].token && log[i].status.Rotated?
      ensures !log[j].status.Rotated?
    {
      assert log[i] in s.log;
    }
  }

  /** A presented token has its row, and its claims name the row's family and user. */
  lemma PresentedRow(s: State, token: Id) returns (i: nat)
    requires Inv(s) && token in s.issued
    ensures Find(s.rows, token).Some? && i < |s.rows| && s.rows[i] == Find(s.rows, token).value
            && s.rows[i].token == token
    ensures s.issued[token] == Claims(s.rows[i].user, s.rows[i].family)
    ensures FamilyUsed(s.rows, s.rows[i].family)
  {
    i := FindIndex(s.rows, token);
    assert s.rows[i] in s.rows;
  }

  lemma LoginKeeps(s: State, user: Id, token: Id, family: Id)
    requires Inv(s) && token !in s.issued && !FamilyUsed(s.rows, family)
    ensures Inv(s.(rows := s.rows + [Row(token, user, family, false)],
                   issued := s.issued[token := Claims(user, family)]))
  {
    forall e | e in s.log && e.status.Replayed? ensures e.family != family {
      assert FamilyUsed(s.rows, e.family);
    }
    AppendKeeps(s, Row(token, user, family, false));
  }

  lemma ReplayKeeps(s: State, token: Id, family: Id)
    requires Inv(s) && token in s.issued && FamilyUsed(s.rows, family)
    ensures Inv(s.(rows := RevokeFamily(s.rows, family), log := s.log + [Entry(token, family, Replayed)]))
  {
    var out := RevokeFamily(s.rows, family);
    RevokingKeeps(s, out);
    FamilyIsDead(s.rows, family);
    LogKeeps(s.(rows := out), Entry(token, family, Replayed));
  }

  lemma FamilyIsDead(rows: seq<Row>, family: Id)
    ensures Dead(RevokeFamily(rows, family), family)
  {
  }

  lemma SpentToken(rows: seq<Row>, token: Id)
    ensures forall r :: r in RevokeToken(rows, token) && r.token == token ==> r.revoked
  {
  }

  /** A live token proves that nobody replayed in its family and that it was never rotated. */
  lemma LiveTokenIsUnspent(s: State, i: nat)
    requires Inv(s) && i < |s.rows| && !s.rows[i].revoked
    ensures forall x :: x in s.log && x.status.Replayed? ==> x.family != s.rows[i].family
    ensures forall x :: x in s.log && x.status.Rotated? ==> x.token != s.rows[i].token
  {
    assert s.rows[i] in s.rows;
  }

  lemma RotateKeeps(s: State, i: nat, replacement: Id)
    requires Inv(s) && i < |s.rows| && !s.rows[i].revoked && replacement !in s.issued
    ensures var row := s.rows[i];
            Inv(s.(rows := RevokeToken(s.rows, row.token) + [Row(replacement, row.user, row.family, false)],
                   issued := s.issued[replacement := Claims(row.user, row.family)],
                   log := s.log + [Entry(row.token, row.family, Rotated(row.user))]))
  {
    var row := s.rows[i];
    assert row in s.rows;
    LiveTokenIsUnspent(s, i);
    LiveTokenIsOnly(s.rows, i);
    RevokedAfter(s.rows, row.token, row.family);
    RevokingKeeps(s, RevokeToken(s.rows, row.token));
    var spent := s.(rows := RevokeToken(s.rows, row.token));
    SpentToken(s.rows, row.token);
    FamilyMember(s.rows, row);
    AppendKeeps(spent, Row(replacement, row.user, row.family, false));
    var appended := spent.(rows := spent.rows + [Row(replacement, row.user, row.family, false)],
                           issued := spent.issued[replacement := Claims(row.user, row.family)]);
    FamilyMember(appended.rows, Row(replacement, row.user, row.family, false));
    LogKeeps(appended, Entry(row.token, row.family, Rotated(row.user)));
  }

  lemma RefreshKeeps(s: State, presented: Id, replacement: Id, user: Option<User>, now: int, n: State)
    requires Inv(s) && Step(s, Refresh(presented, replacement, user, now)) == Some(n)
    ensures Inv(n)
  {
    var i := PresentedRow(s, presented);
    var row := s.rows[i];
    if row.revoked {
      ReplayKeeps(s, presented, row.family);
      assert n == s.(rows := RevokeFamily(s.rows, row.family), log := s.log + [Entry(presented, row.family, Replayed)]);
    } else if Usable(user, now) {
      RotateKeeps(s, i, replacement);
    } else {
      LogKeeps(s, n.log[|s.log|]);
    }
  }

  lemma StepKeeps(s: State, a: Action, n: State)
    requires Inv(s) && Step(s, a) == Some(n)
    ensures Inv(n)
  {
    match a
    case Login(user, token, family) => LoginKeeps(s, user, token, family);
    case Refresh(presented, replacement, user, now) => RefreshKeeps(s, presented, replacement, user, now, n);
  }

  lemma {:induction false} ExecKeeps(s: State, actions: seq<Action>)
    requires Inv(s) && Exec(s, actions).Some?
    ensures Inv(Exec(s, actions).value)
    decreases |actions|
  {
    if actions != [] {
      StepKeeps(s, actions[0], Step(s, actions[0]).value);
      ExecKeeps(Step(s, actions[0]).value, actions[1..]);
    }
  }

  // -------------------------------------------------------- over every run

  /** Every family has at most one live token, and all its tokens are of one user. */
  lemma OneLiveTokenPerFamily(actions: seq<Action>)
    requires Exec(Empty, actions).Some?
    ensures var rows := Exec(Empty, actions).value.rows;
            && UniqueTokens(rows)
            && (forall p, q :: p in rows && q in rows && p.family == q.family ==> p.user == q.user)
            && (forall p, q :: p in rows && q in rows && p.family == q.family && !p.revoked && !q.revoked ==> p == q)
  {
    ExecKeeps(Empty, actions);
    var rows := Exec(Empty, actions).value.rows;
    forall p, q | p in rows && q in rows && p.family == q.family
      ensures p.user == q.user && (!p.revoked && !q.revoked ==> p == q)
    {
      var i :| 0 <= i < |rows| && rows[i] == p;
      var j :| 0 <= j < |rows| && rows[j] == q;
    }
  }

  /** Once a revoked token of a family was presented, no token of that family rotates again. */
  lemma ReplayKillsFamily(actions: seq<Action>, i: nat, j: nat)
    requires Exec(Empty, actions).Some?
    requires i < j < |Exec(Empty, actions).value.log|
    requires Exec(Empty, actions).value.log[i].status.Replayed?
    requires Exec(Empty, actions).value.log[i].family == Exec(Empty, actions).value.log[j].family
    ensures !Exec(Empty, actions).value.log[j].status.Rotated?
  {
    ExecKeeps(Empty, actions);
  }

  /** No token rotates twice. */
  lemma TokenRotatesOnce(actions: seq<Action>, i: nat, j: nat)
    requires Exec(Empty, actions).Some?
    requires i < j < |Exec(Empty, actions).value.log|
    requires Exec(Empty, actions).value.log[i].token == Exec(Empty, actions).value.log[j].token
    requires Exec(Empty, actions).value.log[i].status.Rotated?
    ensures !Exec(Empty, actions).value.log[j].status.Rotated?
  {
    ExecKeeps(Empty, actions);
  }

  /** Presenting a token that has been used is always recognised, whatever happened since. */
  lemma UsedTokenIsReplay(actions: seq<Action>, e: Entry, replacement: Id, user: Option<User>, now: int)
    requires Exec(Empty, actions).Some? && e in Exec(Empty, actions).value.log && e.status.Rotated?
    requires replacement !in Exec(Empty, actions).value.issued
    ensures var s := Exec(Empty, actions).value;
            && Step(s, Refresh(e.token, replacement, user, now)).Some?
            && Rotate(s.rows, e.token, replacement, e.family, user, now).1.Replayed?
  {
    ExecKeeps(Empty, actions);
    var s := Exec(Empty, actions).value;
    var i := PresentedRow(s, e.token);
    assert s.rows[i] in s.rows;
  }

  /** The presented token is live: its one row is not revoked. */
  ghost predicate Live(rows: seq<Row>, token: Id) { exists r :: r in rows && r.token == token && !r.revoked }

  /**
   * Over every run a refresh issues a token exactly for a live token of a user who is active and not
   * locked at that moment; the new one is live, of the same user and family, and the old one is spent.
   */
  lemma IssuedOnlyToUsable(actions: seq<Action>, presented: Id, replacement: Id, user: Option<User>, now: int)
    requires Exec(Empty, actions).Some? && presented in Exec(Empty, actions).value.issued
    requires replacement !in Exec(Empty, actions).value.issued
    ensures var s := Exec(Empty, actions).value;
            var step := Step(s, Refresh(presented, replacement, user, now));
            && step.Some?
            && (replacement in step.value.issued <==>
                  Live(s.rows, presented) && user.Some? && user.value.isActive
                  && !(user.value.lockedUntil.Some? && user.value.lockedUntil.value > now))
            && (if replacement in step.value.issued then
                  && step.value.issued == s.issued[replacement := s.issued[presented]]
                  && Live(step.value.rows, replacement) && !Live(step.value.rows, presented)
                else step.value.issued == s.issued)
  {
    ExecKeeps(Empty, actions);
    var s := Exec(Empty, actions).value;
    var i := PresentedRow(s, presented);
    assert s.rows[i] in s.rows;
    OnlyRow(s.rows, i);
    RotateExactlyWhen(s.rows, s.rows[i], replacement, s.rows[i].family, user, now);
    if Rotate(s.rows, presented, replacement, s.rows[i].family, user, now).1.Rotated? {
      SpentAndIssued(s.rows, i, replacement);
    }
  }

  /** A login starts a family of its own with one live token of the user, and touches no other row. */
  lemma LoginStartsFamily(s: State, user: Id, token: Id, family: Id)
    ensures var step := Step(s, Login(user, token, family));
            && (step.Some? <==> token !in s.issued && forall r :: r in s.rows ==> r.family != family)
            && (step.Some? ==>
                  && step.value.rows == s.rows + [Row(token, user, family, false)] && step.value.log == s.log
                  && step.value.issued == s.issued[token := Claims(user, family)])
  {
  }

  lemma OnlyRow(rows: seq<Row>, i: nat)
    requires UniqueTokens(rows) && i < |rows|
    ensures Live(rows, rows[i].token) <==> !rows[i].revoked
  {
    assert rows[i] in rows;
    if Live(rows, rows[i].token) {
      var r :| r in rows && r.token == rows[i].token && !r.revoked;
      var j :| 0 <= j < |rows| && rows[j] == r;
    }
  }

  lemma SpentAndIssued(rows: seq<Row>, i: nat, replacement: Id)
    requires i < |rows| && rows[i].token != replacement
    ensures var out := RevokeToken(rows, rows[i].token) + [Row(replacement, rows[i].user, rows[i].family, false)];
            Live(out, replacement) && !Live(out, rows[i].token)
  {
    var added := Row(replacement, rows[i].user, rows[i].family, false);
    var out := RevokeToken(rows, rows[i].token) + [added];
    assert out[|rows|] == added && added in out;
    SpentToken(rows, rows[i].token);
  }
}

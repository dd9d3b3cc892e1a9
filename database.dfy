/** The persistence layer's guards and transaction flow (infoset/db/db.py).

    `Database.query` accepts only statements whose first word is SELECT;
    `Database.modify` accepts only UPDATE, DELETE, INSERT and REPLACE, runs
    the statement once or over a batch of parameter tuples, and commits, or
    rolls back and dies.  The MySQL server is abstract: what it does with a
    statement is an input (`QueryReply`, `ModifyReply`), and the calls made on
    the connection and its cursor are recorded, in order, in `Store.trace`.
 */
module Database {
  import opened Failures

  // ---------------------------------------------------------------------
  // The first-word guards
  // ---------------------------------------------------------------------

  /** Python's `str.isspace()` for one character: the separators that
      `str.split()` with no argument splits on. */
  predicate IsSpace(c: char) {
    || c == ' '
    || '\t' <= c <= '\r'
    || '\U{1C}' <= c <= '\U{1F}'
    || c == '\U{85}' || c == '\U{A0}' || c == '\U{1680}'
    || '\U{2000}' <= c <= '\U{200A}'
    || c == '\U{2028}' || c == '\U{2029}' || c == '\U{202F}' || c == '\U{205F}' || c == '\U{3000}'
  }

  /** Drops the leading separators. */
  function SkipSpace(s: string): (t: string)
    ensures |t| <= |s| && t == s[|s| - |t|..]
    ensures forall i :: 0 <= i < |s| - |t| ==> IsSpace(s[i])
    ensures t == [] || !IsSpace(t[0])
  {
    if s == [] || !IsSpace(s[0]) then s else SkipSpace(s[1..])
  }

  /** The longest prefix free of separators. */
  function Word(s: string): (w: string)
    ensures |w| <= |s| && w == s[..|w|]
    ensures forall i :: 0 <= i < |w| ==> !IsSpace(w[i])
    ensures |w| == |s| || IsSpace(s[|w|])
  {
    if s == [] || IsSpace(s[0]) then [] else [s[0]] + Word(s[1..])
  }

  /** `statement.split()[0]`, or None where Python raises IndexError
      (a statement made of separators only). */
  function FirstWord(s: string): (r: Option<string>)
    ensures r.None? <==> forall i :: 0 <= i < |s| ==> IsSpace(s[i])
    ensures r.Some? ==>
      && |r.value| > 0
      && (forall i :: 0 <= i < |r.value| ==> !IsSpace(r.value[i]))
      && exists k :: 0 <= k <= |s| - |r.value| && StartsWordAt(s, k, r.value)
  {
    var t := SkipSpace(s);
    if t == [] then None
    else
      var w := Word(t);
      assert StartsWordAt(s, |s| - |t|, w);
      Some(w)
  }

  /** `w` is the first word of `s` and starts at index `k`: only separators
      before it, a separator or the end after it. */
  ghost predicate StartsWordAt(s: string, k: int, w: string)
    requires 0 <= k <= |s| - |w|
  {
    && (forall i :: 0 <= i < k ==> IsSpace(s[i]))
    && s[k..k + |w|] == w
    && (k + |w| == |s| || IsSpace(s[k + |w|]))
  }

  /** Python's `str.lower()` on one character; only ASCII letters change,
      which decides every comparison with the five keywords below. */
  function LowerChar(c: char): char {
    if 'A' <= c <= 'Z' then (c as int + 32) as char else c
  }

  function Lower(s: string): (r: string)
    ensures |r| == |s| && forall i :: 0 <= i < |s| ==> r[i] == LowerChar(s[i])
  {
    if s == [] then [] else [LowerChar(s[0])] + Lower(s[1..])
  }

  /** What `query` lets through: the lower-cased first word is `select`. */
  predicate IsReadStatement(s: string) {
    FirstWord(s).Some? && Lower(FirstWord(s).value) == "select"
  }

  /** What `modify` lets through. */
  predicate IsWriteStatement(s: string) {
    FirstWord(s).Some? && Lower(FirstWord(s).value) in {"update", "delete", "insert", "replace"}
  }

  lemma GuardsDisjoint(s: string)
    ensures !(IsReadStatement(s) && IsWriteStatement(s))
  {
  }

  lemma LowerCharKeepsSpace(c: char)
    ensures IsSpace(LowerChar(c)) == IsSpace(c)
  {
  }

  lemma {:induction false} SkipSpaceLower(s: string)
    ensures SkipSpace(Lower(s)) == Lower(SkipSpace(s))
  {
    if s != [] {
      LowerCharKeepsSpace(s[0]);
      assert Lower(s)[1..] == Lower(s[1..]);
      SkipSpaceLower(s[1..]);
    }
  }

  lemma {:induction false} WordLower(s: string)
    ensures Word(Lower(s)) == Lower(Word(s))
  {
    if s != [] {
      LowerCharKeepsSpace(s[0]);
      assert Lower(s)[1..] == Lower(s[1..]);
      WordLower(s[1..]);
    }
  }

  lemma FirstWordLower(s: string)
    ensures FirstWord(Lower(s)).Some? == FirstWord(s).Some?
    ensures FirstWord(s).Some? ==> FirstWord(Lower(s)).value == Lower(FirstWord(s).value)
  {
    SkipSpaceLower(s);
    WordLower(SkipSpace(s));
  }

  lemma LowerIdempotent(s: string)
    ensures Lower(Lower(s)) == Lower(s)
  {
  }

  /** The guards ignore letter case: two statements that differ only in the
      case of their letters get the same verdict from both guards. */
  lemma GuardsIgnoreCase(s1: string, s2: string)
    requires Lower(s1) == Lower(s2)
    ensures IsReadStatement(s1) == IsReadStatement(s2)
    ensures IsWriteStatement(s1) == IsWriteStatement(s2)
  {
    FirstWordLower(s1);
    FirstWordLower(s2);
    if FirstWord(s1).Some? {
      LowerIdempotent(FirstWord(s1).value);
      LowerIdempotent(FirstWord(s2).value);
    }
  }

  /** A word followed by a separator (or by nothing) is the first word. */
  lemma {:induction false} WordOfConcat(w: string, rest: string)
    requires forall i :: 0 <= i < |w| ==> !IsSpace(w[i])
    requires rest == [] || IsSpace(rest[0])
    ensures Word(w + rest) == w
  {
    if w != [] {
      assert (w + rest)[1..] == w[1..] + rest;
      WordOfConcat(w[1..], rest);
    }
  }

  lemma FirstWordOfConcat(w: string, rest: string)
    requires |w| > 0 && forall i :: 0 <= i < |w| ==> !IsSpace(w[i])
    requires rest == [] || IsSpace(rest[0])
    ensures FirstWord(w + rest) == Some(w)
  {
    WordOfConcat(w, rest);
  }

  /** A statement whose first word is a case variant of SELECT passes the
      guard of `query`. */
  lemma ReadStatementOf(w: string, rest: string)
    requires Lower(w) == "select"
    requires rest == [] || IsSpace(rest[0])
    ensures IsReadStatement(w + rest)
  {
    WordOfKeyword(w);
    FirstWordOfConcat(w, rest);
  }

  /** A case variant of a word without separators has none either. */
  lemma WordOfKeyword(w: string)
    requires forall i :: 0 <= i < |Lower(w)| ==> !IsSpace(Lower(w)[i])
    ensures forall i :: 0 <= i < |w| ==> !IsSpace(w[i])
  {
    forall i | 0 <= i < |w| ensures !IsSpace(w[i]) {
      LowerCharKeepsSpace(w[i]);
      assert Lower(w)[i] == LowerChar(w[i]);
    }
  }

  lemma LowerSelect()
    ensures Lower("SELECT") == "select"
    ensures Lower("Select") == "select"
  {
  }

  /** SELECT is accepted by `query` in any letter case. */
  lemma SelectAnyCase()
    ensures IsReadStatement("SELECT" + " x")
    ensures IsReadStatement("Select" + " x")
    ensures IsReadStatement("select" + " x")
  {
    LowerSelect();
    ReadStatementOf("SELECT", " x");
    ReadStatementOf("Select", " x");
    ReadStatementOf("select", " x");
  }

  /** A statement whose first word is a case variant of one of the four
      modification keywords passes the guard of `modify`. */
  lemma WriteStatementOf(w: string, rest: string)
    requires Lower(w) in {"update", "delete", "insert", "replace"}
    requires rest == [] || IsSpace(rest[0])
    ensures IsWriteStatement(w + rest)
    ensures !IsReadStatement(w + rest)
  {
    KeywordHasNoSpace(Lower(w));
    WordOfKeyword(w);
    FirstWordOfConcat(w, rest);
  }

  /** The four modification keywords are single words. */
  lemma KeywordHasNoSpace(k: string)
    requires k in {"update", "delete", "insert", "replace"}
    ensures forall i :: 0 <= i < |k| ==> !IsSpace(k[i])
  {
    if k == "update" {
      assert k == "update";
    } else if k == "delete" {
      assert k == "delete";
    } else if k == "insert" {
      assert k == "insert";
    } else {
      assert k == "replace";
    }
  }

  /** A modification is refused by `query` and accepted by `modify`. */
  lemma UpdateIsWriteOnly()
    ensures IsWriteStatement("UPDATE" + " t")
    ensures !IsReadStatement("UPDATE" + " t")
  {
    LowerUpdate();
    WriteStatementOf("UPDATE", " t");
  }

  lemma LowerUpdate()
    ensures Lower("UPDATE") == "update"
  {
  }

  /** A statement of separators only has no first word (IndexError). */
  lemma BlankHasNoFirstWord()
    ensures FirstWord(" \t\n").None?
  {
  }

  // ---------------------------------------------------------------------
  // The connection
  // ---------------------------------------------------------------------

  datatype Param = PInt(i: int) | PStr(s: string) | PNull

  /** One parameter tuple of an `executemany` batch. */
  type Params = seq<Param>

  /** A call on the connection or its cursor. */
  datatype Op =
    | Connect
    | Execute(statement: string)
    | ExecuteMany(statement: string, batch: seq<Params>)
    | FetchAll
    | Commit
    | Rollback
    | Close

  /** What the server does with a SELECT. */
  datatype QueryReply<R> =
    | Fetched(rows: seq<R>)   // execute and fetchall succeed
    | ExecuteRaises
    | FetchRaises

  /** What the server does with a modification. */
  datatype ModifyReply =
    | Applied                 // execute (or executemany) and commit succeed
    | ApplyRaises
    | CommitRaises

  /** The connection calls a successful or failed `query` makes. */
  function QueryOps<R>(statement: string, reply: QueryReply<R>): seq<Op> {
    [Connect, Execute(statement)] +
    match reply
    case Fetched(_) => [FetchAll, Close]
    case ExecuteRaises => []
    case FetchRaises => [FetchAll]
  }

  /** The statement step of `modify`: `executemany` exactly when the batch
      is non-empty (a truthy `data_list`). */
  function ApplyOp(statement: string, dataList: seq<Params>): (op: Op)
    ensures op.ExecuteMany? <==> |dataList| > 0
  {
    if |dataList| > 0 then ExecuteMany(statement, dataList) else Execute(statement)
  }

  function ModifyOps(statement: string, dataList: seq<Params>, reply: ModifyReply): seq<Op> {
    [Connect, ApplyOp(statement, dataList)] +
    match reply
    case Applied => [Commit, Close]
    case ApplyRaises => [Rollback]
    case CommitRaises => [Commit, Rollback]
  }

  /** Commit is issued only after the statement step went through, and never
      when that step raised; every failure rolls back; a rolled-back run never
      closes the connection, because `log2die` exits first. */
  lemma ModifyTransaction(statement: string, dataList: seq<Params>, reply: ModifyReply)
    ensures Commit in ModifyOps(statement, dataList, reply) <==> !reply.ApplyRaises?
    ensures Rollback in ModifyOps(statement, dataList, reply) <==> !reply.Applied?
    ensures Close in ModifyOps(statement, dataList, reply) <==> reply.Applied?
    ensures ModifyOps(statement, dataList, reply)[1] == ApplyOp(statement, dataList)
    ensures Commit in ModifyOps(statement, dataList, reply) ==> ModifyOps(statement, dataList, reply)[2] == Commit
  {
  }

  class Store {
    /** Every call made on connections opened by this object, oldest first. */
    var trace: seq<Op>

    constructor ()
      ensures trace == []
    {
      trace := [];
    }

    /** `Database.query`: refuse anything but SELECT, then execute and fetch
        all rows; any exception is fatal with the caller's code. */
    method Query<R>(statement: string, errorCode: int, reply: QueryReply<R>) returns (r: Result<seq<R>>)
      modifies this
      ensures FirstWord(statement).None? ==> r == Err(Uncaught(IndexError)) && trace == old(trace)
      ensures FirstWord(statement).Some? && !IsReadStatement(statement) ==>
        r == Err(Die(errorCode)) && trace == old(trace)
      ensures IsReadStatement(statement) ==>
        && trace == old(trace) + QueryOps(statement, reply)
        && r == if reply.Fetched? then Ok(reply.rows) else Err(Die(errorCode))
    {
      var word := FirstWord(statement);
      if word.None? {
        return Err(Uncaught(IndexError));
      }
      if Lower(word.value) != "select" {
        return Err(Die(errorCode));
      }
      r := Fetch(statement, errorCode, reply);
    }

    /** The connection part of `query`, once the guard has let the
        statement through. */
    method Fetch<R>(statement: string, errorCode: int, reply: QueryReply<R>) returns (r: Result<seq<R>>)
      modifies this
      ensures trace == old(trace) + QueryOps(statement, reply)
      ensures r == if reply.Fetched? then Ok(reply.rows) else Err(Die(errorCode))
    {
      trace := trace + [Connect, Execute(statement)];
      match reply
      case ExecuteRaises =>
        r := Err(Die(errorCode));
      case FetchRaises =>
        trace := trace + [FetchAll];
        r := Err(Die(errorCode));
      case Fetched(rows) =>
        trace := trace + [FetchAll, Close];
        r := Ok(rows);
    }

    /** `Database.modify`: refuse anything but UPDATE, DELETE, INSERT and
        REPLACE, then run the statement and commit; on any exception roll
        back and die with the caller's code. */
    method Modify(statement: string, errorCode: int, dataList: seq<Params>, reply: ModifyReply)
      returns (r: Result<()>)
      modifies this
      ensures FirstWord(statement).None? ==> r == Err(Uncaught(IndexError)) && trace == old(trace)
      ensures FirstWord(statement).Some? && !IsWriteStatement(statement) ==>
        r == Err(Die(errorCode)) && trace == old(trace)
      ensures IsWriteStatement(statement) ==>
        && trace == old(trace) + ModifyOps(statement, dataList, reply)
        && r == if reply.Applied? then Ok(()) else Err(Die(errorCode))
    {
      var word := FirstWord(statement);
      if word.None? {
        return Err(Uncaught(IndexError));
      }
      var keyword := Lower(word.value);
      if keyword != "update" && keyword != "delete" && keyword != "insert" && keyword != "replace" {
        return Err(Die(errorCode));
      }
      r := Apply(statement, errorCode, dataList, reply);
    }

    /** The connection part of `modify`: `executemany` over the batch when
        there is one, plain `execute` otherwise; then commit, or roll back. */
    method Apply(statement: string, errorCode: int, dataList: seq<Params>, reply: ModifyReply)
      returns (r: Result<()>)
      modifies this
      ensures trace == old(trace) + ModifyOps(statement, dataList, reply)
      ensures r == if reply.Applied? then Ok(()) else Err(Die(errorCode))
    {
      trace := trace + [Connect];
      if |dataList| > 0 {
        trace := trace + [ExecuteMany(statement, dataList)];
      } else {
        trace := trace + [Execute(statement)];
      }
      match reply
      case ApplyRaises =>
        trace := trace + [Rollback];
        r := Err(Die(errorCode));
      case CommitRaises =>
        trace := trace + [Commit, Rollback];
        r := Err(Die(errorCode));
      case Applied =>
        trace := trace + [Commit, Close];
        r := Ok(());
    }
  }
}

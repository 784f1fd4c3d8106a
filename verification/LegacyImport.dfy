/** The atomic, retryable import of the old `ctx` table: koder_agent/core/legacy_sessions.py.

    A parsed message is an opaque value that survives a JSON round trip. The rows of
    `ctx` are listed as the query returns them, ordered by sid; nothing below needs the
    sids to be unique.
 */
module LegacyImport {
  import opened Prelude

  type Message = string
  type SessionId = string

  /** The msgs column: NULL or empty, not JSON, not a list of objects, or a transcript. */
  datatype Transcript = Blank | NotJson | WrongShape | Listed(messages: seq<Message>)

  /** A stored history line; reading one back can fail. */
  datatype Line = Parsed(message: Message) | Corrupt

  /** The sid column may hold something that is not text. */
  datatype CtxRow = CtxRow(sid: Option<SessionId>, raw: Transcript, title: Option<string>)

  /** `titles` has a key per metadata row; its title may be NULL. */
  datatype Db = Db(
    ctx: Option<seq<CtxRow>>, histories: map<SessionId, seq<Line>>, sessions: set<SessionId>,
    titles: map<SessionId, Option<string>>, completed: bool)

  datatype ImportError = InvalidSessionId | InvalidTranscript | CorruptHistory | Conflict | WriteFault

  function History(db: Db, sid: SessionId): seq<Line>
  {
    if sid in db.histories then db.histories[sid] else []
  }

  function Lines(messages: seq<Message>): (r: seq<Line>)
    ensures |r| == |messages|
  {
    seq(|messages|, i requires 0 <= i < |messages| => Parsed(messages[i]))
  }

  predicate Readable(lines: seq<Line>)
  {
    forall i :: 0 <= i < |lines| ==> lines[i].Parsed?
  }

  /** _legacy_messages. */
  function LegacyMessages(raw: Transcript): Option<seq<Message>>
  {
    match raw
    case Blank => Some([])
    case Listed(messages) => Some(messages)
    case _ => None
  }

  function Coalesce(a: Option<string>, b: Option<string>): Option<string>
  {
    if a.Some? then a else b
  }

  function TitleOf(db: Db, sid: SessionId): Option<string>
  {
    if sid in db.titles then db.titles[sid] else None
  }

  // ------------------------------------------------------------- one row, all rows

  function WithTitle(db: Db, sid: SessionId, title: Option<string>): Db
  {
    db.(titles := db.titles[sid := Coalesce(TitleOf(db, sid), title)])
  }

  function ImportRow(db: Db, row: CtxRow): Result<Db, ImportError>
  {
    if row.sid.None? || row.sid.value == "" then Failure(InvalidSessionId)
    else if LegacyMessages(row.raw).None? then Failure(InvalidTranscript)
    else
      var sid := row.sid.value;
      var lines := Lines(LegacyMessages(row.raw).value);
      var existing := History(db, sid);
      if !Readable(existing) then Failure(CorruptHistory)
      else if existing != [] then
        if lines <= existing then Success(WithTitle(db, sid, row.title)) else Failure(Conflict)
      else
        Success(WithTitle(db.(sessions := db.sessions + {sid}, histories := db.histories[sid := lines]), sid, row.title))
  }

  function ImportRows(db: Db, rows: seq<CtxRow>): Result<Db, ImportError>
    decreases rows
  {
    if rows == [] then Success(db)
    else
      match ImportRow(db, rows[0])
      case Failure(e) => Failure(e)
      case Success(next) => ImportRows(next, rows[1..])
  }

  // ------------------------------------------------------------------ one row

  /** The row's import is done: doing it again changes nothing. */
  predicate Settled(db: Db, row: CtxRow)
  {
    && row.sid.Some? && row.sid.value != "" && LegacyMessages(row.raw).Some?
    && Readable(History(db, row.sid.value))
    && Lines(LegacyMessages(row.raw).value) <= History(db, row.sid.value)
    && row.sid.value in db.titles && (TitleOf(db, row.sid.value).Some? || row.title.None?)
    && (History(db, row.sid.value) == [] ==> row.sid.value in db.sessions && row.sid.value in db.histories)
  }

  lemma ImportSettles(db: Db, row: CtxRow)
    requires ImportRow(db, row).Success?
    ensures Settled(ImportRow(db, row).value, row)
  {
  }

  lemma SettledIsFixed(db: Db, row: CtxRow)
    requires Settled(db, row)
    ensures ImportRow(db, row) == Success(db)
  {
    var sid := row.sid.value;
    assert db.titles[sid := db.titles[sid]] == db.titles;
    if History(db, sid) == [] {
      assert Lines(LegacyMessages(row.raw).value) == [];
      assert db.sessions + {sid} == db.sessions;
      assert db.histories[sid := []] == db.histories;
    }
  }

  /** Importing another row keeps it settled and only ever fills an empty history. */
  lemma ImportKeeps(db: Db, row: CtxRow, other: CtxRow)
    requires ImportRow(db, other).Success?
    ensures Settled(db, row) ==> Settled(ImportRow(db, other).value, row)
    ensures forall sid :: History(db, sid) != [] ==> History(ImportRow(db, other).value, sid) == History(db, sid)
    ensures forall sid :: TitleOf(db, sid).Some? ==> TitleOf(ImportRow(db, other).value, sid) == TitleOf(db, sid)
  {
  }

  // ----------------------------------------------------------------- all rows

  /** On success every legacy transcript is a prefix of its session's history. */
  lemma {:induction false} AllRowsSettled(db: Db, rows: seq<CtxRow>)
    requires ImportRows(db, rows).Success?
    ensures forall i :: 0 <= i < |rows| ==> Settled(ImportRows(db, rows).value, rows[i])
    decreases rows
  {
    if rows != [] {
      var next := ImportRow(db, rows[0]).value;
      ImportSettles(db, rows[0]);
      AllRowsSettled(next, rows[1..]);
      SettledSurvives(next, rows[1..], rows[0]);
    }
  }

  lemma {:induction false} SettledSurvives(db: Db, rows: seq<CtxRow>, row: CtxRow)
    requires ImportRows(db, rows).Success? && Settled(db, row)
    ensures Settled(ImportRows(db, rows).value, row)
    decreases rows
  {
    if rows != [] {
      ImportKeeps(db, row, rows[0]);
      SettledSurvives(ImportRow(db, rows[0]).value, rows[1..], row);
    }
  }

  /** Histories and titles that existed are kept as they were; a history that was empty
      becomes exactly one transcript, so no prefix is ever appended twice. */
  lemma {:induction false} ExistingDataIsKept(db: Db, rows: seq<CtxRow>, sid: SessionId)
    requires ImportRows(db, rows).Success?
    ensures var after := ImportRows(db, rows).value;
            && (History(db, sid) != [] ==> History(after, sid) == History(db, sid))
            && (History(db, sid) == [] && History(after, sid) != [] ==>
                  exists i :: 0 <= i < |rows| && rows[i].sid == Some(sid)
                              && LegacyMessages(rows[i].raw).Some?
                              && History(after, sid) == Lines(LegacyMessages(rows[i].raw).value))
            && (TitleOf(db, sid).Some? ==> TitleOf(after, sid) == TitleOf(db, sid))
            && after.ctx == db.ctx && after.completed == db.completed
    decreases rows
  {
    if rows != [] {
      var next := ImportRow(db, rows[0]).value;
      ImportKeeps(db, rows[0], rows[0]);
      ExistingDataIsKept(next, rows[1..], sid);
      var after := ImportRows(db, rows).value;
      if History(db, sid) == [] && History(after, sid) != [] && History(next, sid) == [] {
        var i :| 0 <= i < |rows[1..]| && rows[1..][i].sid == Some(sid) && LegacyMessages(rows[1..][i].raw).Some?
          && History(after, sid) == Lines(LegacyMessages(rows[1..][i].raw).value);
        assert rows[i + 1] == rows[1..][i];
      }
    }
  }

  /** What an imported row leaves: an empty history becomes exactly the transcript, line by
      line, and a title is only taken over where there is none. */
  lemma ImportedRow(db: Db, row: CtxRow)
    requires ImportRow(db, row).Success?
    ensures var after, sid := ImportRow(db, row).value, row.sid.value;
            && (row.raw.Blank? || row.raw.Listed?)
            && (History(db, sid) == [] ==> sid in after.sessions)
            && (History(db, sid) == [] && row.raw.Blank? ==> History(after, sid) == [])
            && (History(db, sid) == [] && row.raw.Listed? ==>
                  && |History(after, sid)| == |row.raw.messages|
                  && forall k :: 0 <= k < |row.raw.messages| ==> History(after, sid)[k] == Parsed(row.raw.messages[k]))
            && (History(db, sid) != [] ==> History(after, sid) == History(db, sid))
            && TitleOf(after, sid) == (if TitleOf(db, sid).Some? then TitleOf(db, sid) else row.title)
            && forall other :: other != sid ==>
                 History(after, other) == History(db, other) && TitleOf(after, other) == TitleOf(db, other)
  {
  }

  /** Whether a row can be imported, and which error it is otherwise: the identifier first,
      then the transcript, then the stored history, then a conflict between the two. */
  lemma RowAnswers(db: Db, row: CtxRow)
    ensures var r := ImportRow(db, row);
            if row.sid.None? || row.sid.value == "" then r == Failure(InvalidSessionId)
            else if row.raw.NotJson? || row.raw.WrongShape? then r == Failure(InvalidTranscript)
            else
              var stored := History(db, row.sid.value);
              if exists i :: 0 <= i < |stored| && stored[i].Corrupt? then r == Failure(CorruptHistory)
              else if stored == [] || row.raw.Blank? then r.Success?
              else
                var said := row.raw.messages;
                if |said| <= |stored| && forall i :: 0 <= i < |said| ==> stored[i].message == said[i] then r.Success?
                else r == Failure(Conflict)
  {
    if row.sid.Some? && row.raw.Listed? {
      var stored, lines := History(db, row.sid.value), Lines(row.raw.messages);
      if Readable(stored) && |lines| <= |stored| {
        assert lines <= stored <==> forall i :: 0 <= i < |lines| ==> stored[i] == lines[i];
      }
    }
  }

  /** The first row of `sid` that has a title. */
  function FirstTitle(rows: seq<CtxRow>, sid: SessionId): Option<string>
  {
    if rows == [] then None
    else if rows[0].sid == Some(sid) && rows[0].title.Some? then rows[0].title
    else FirstTitle(rows[1..], sid)
  }

  /** A session without a title gets the first legacy one, and any other keeps its own. */
  lemma {:induction false} TitlesAreTakenOver(db: Db, rows: seq<CtxRow>, sid: SessionId)
    requires ImportRows(db, rows).Success?
    ensures TitleOf(ImportRows(db, rows).value, sid) ==
      if TitleOf(db, sid).Some? then TitleOf(db, sid) else FirstTitle(rows, sid)
    decreases rows
  {
    if rows != [] {
      ImportedRow(db, rows[0]);
      TitlesAreTakenOver(ImportRow(db, rows[0]).value, rows[1..], sid);
    }
  }

  lemma {:induction false} RowsOneByOne(db: Db, xs: seq<CtxRow>, ys: seq<CtxRow>)
    ensures ImportRows(db, xs + ys)
            == (if ImportRows(db, xs).Success? then ImportRows(ImportRows(db, xs).value, ys) else ImportRows(db, xs))
    decreases xs
  {
    if xs == [] {
      assert xs + ys == ys;
    } else {
      assert (xs + ys)[1..] == xs[1..] + ys;
      if ImportRow(db, xs[0]).Success? {
        RowsOneByOne(ImportRow(db, xs[0]).value, xs[1..], ys);
      }
    }
  }

  lemma {:induction false} SettledRowsAreFixed(db: Db, rows: seq<CtxRow>)
    requires forall i :: 0 <= i < |rows| ==> Settled(db, rows[i])
    ensures ImportRows(db, rows) == Success(db)
    decreases rows
  {
    if rows != [] {
      SettledIsFixed(db, rows[0]);
      SettledRowsAreFixed(db, rows[1..]);
    }
  }

  // ------------------------------------------------------------------- resuming

  /** `grown` is `db` after sessions that already had a history went on: newer lines
      were appended to them. */
  ghost predicate Continued(db: Db, grown: Db, suffix: map<SessionId, seq<Line>>)
  {
    && grown.(histories := db.histories) == db
    && (forall sid :: sid in suffix ==> History(db, sid) != [] && Readable(suffix[sid]))
    && (forall sid :: sid in grown.histories <==> sid in db.histories)
    && (forall sid :: sid in db.histories ==>
          grown.histories[sid] == db.histories[sid] + if sid in suffix then suffix[sid] else [])
  }

  lemma ContinuedHistory(db: Db, grown: Db, suffix: map<SessionId, seq<Line>>, sid: SessionId)
    requires Continued(db, grown, suffix)
    ensures History(grown, sid) == History(db, sid) + if sid in suffix then suffix[sid] else []
    ensures History(db, sid) == [] <==> History(grown, sid) == []
  {
  }

  lemma ImportCommutesWithGrowth(db: Db, grown: Db, suffix: map<SessionId, seq<Line>>, row: CtxRow)
    requires Continued(db, grown, suffix) && ImportRow(db, row).Success?
    ensures ImportRow(grown, row).Success?
    ensures Continued(ImportRow(db, row).value, ImportRow(grown, row).value, suffix)
  {
    var sid := row.sid.value;
    ContinuedHistory(db, grown, suffix, sid);
    forall other | other in suffix
      ensures History(ImportRow(db, row).value, other) != []
    {
      assert History(db, other) != [];
    }
  }

  lemma {:induction false} RowsCommuteWithGrowth(db: Db, grown: Db, suffix: map<SessionId, seq<Line>>,
      rows: seq<CtxRow>)
    requires Continued(db, grown, suffix) && ImportRows(db, rows).Success?
    ensures ImportRows(grown, rows).Success?
    ensures Continued(ImportRows(db, rows).value, ImportRows(grown, rows).value, suffix)
    decreases rows
  {
    if rows != [] {
      ImportCommutesWithGrowth(db, grown, suffix, rows[0]);
      RowsCommuteWithGrowth(ImportRow(db, rows[0]).value, ImportRow(grown, rows[0]).value, suffix, rows[1..]);
    }
  }

  /** An older version may have stopped after `j` transcripts, without recording
      completion, and the imported sessions may have gone on since. The retry succeeds;
      it ends with what an uninterrupted import would have produced plus those newer
      lines, so nothing is lost and nothing is appended twice. */
  lemma ResumeAfterPartialImport(db: Db, rows: seq<CtxRow>, j: nat, grown: Db, suffix: map<SessionId, seq<Line>>)
    requires j <= |rows| && ImportRows(db, rows).Success? && ImportRows(db, rows[..j]).Success?
    requires Continued(ImportRows(db, rows[..j]).value, grown, suffix)
    ensures ImportRows(grown, rows).Success?
    ensures Continued(ImportRows(db, rows).value, ImportRows(grown, rows).value, suffix)
  {
    var half := ImportRows(db, rows[..j]).value;
    assert rows == rows[..j] + rows[j..];
    RowsOneByOne(db, rows[..j], rows[j..]);
    AllRowsSettled(db, rows[..j]);
    SettledRowsAreFixed(half, rows[..j]);
    RowsOneByOne(half, rows[..j], rows[j..]);
    RowsCommuteWithGrowth(half, grown, suffix, rows);
  }

  /** A stop inside a row: the session is there with the first m lines of its transcript, and
      its title is not. */
  function Torn(db: Db, sid: SessionId, lines: seq<Line>, m: nat): Db
    requires m <= |lines|
  {
    db.(sessions := db.sessions + {sid}, histories := db.histories[sid := lines[..m]])
  }

  lemma TornKeepsSettled(db: Db, sid: SessionId, lines: seq<Line>, m: nat, row: CtxRow)
    requires m <= |lines| && Readable(lines) && History(db, sid) == [] && Settled(db, row)
    ensures Settled(Torn(db, sid, lines, m), row)
  {
  }

  lemma TornRow(db: Db, row: CtxRow, m: nat)
    requires row.sid.Some? && LegacyMessages(row.raw).Some? && m <= |Lines(LegacyMessages(row.raw).value)|
    requires History(db, row.sid.value) == [] && ImportRow(db, row).Success?
    ensures var lines := Lines(LegacyMessages(row.raw).value);
            ImportRow(Torn(db, row.sid.value, lines, m), row)
            == if m == 0 || m == |lines| then ImportRow(db, row) else Failure(Conflict)
  {
    var sid, lines := row.sid.value, Lines(LegacyMessages(row.raw).value);
    var torn := Torn(db, sid, lines, m);
    assert torn.sessions + {sid} == db.sessions + {sid};
    if m == |lines| {
      assert lines[..m] == lines;
    }
    if m == 0 {
      assert torn.histories[sid := lines] == db.histories[sid := lines];
    } else {
      assert History(torn, sid) == lines[..m] != [];
    }
  }

  /** A retry after a stop inside row j goes through exactly if none or all of its transcript
      had been written, and then ends as an uninterrupted import; any other part of it is a
      conflict, and the import aborts. */
  lemma ResumeInsideRow(db: Db, rows: seq<CtxRow>, j: nat, m: nat)
    requires j < |rows| && ImportRows(db, rows).Success? && ImportRows(db, rows[..j]).Success?
    requires rows[j].sid.Some? && LegacyMessages(rows[j].raw).Some?
    requires m <= |Lines(LegacyMessages(rows[j].raw).value)|
    requires History(ImportRows(db, rows[..j]).value, rows[j].sid.value) == []
    ensures var lines := Lines(LegacyMessages(rows[j].raw).value);
            ImportRows(Torn(ImportRows(db, rows[..j]).value, rows[j].sid.value, lines, m), rows)
            == if m == 0 || m == |lines| then ImportRows(db, rows) else Failure(Conflict)
  {
    var half, sid, lines := ImportRows(db, rows[..j]).value, rows[j].sid.value, Lines(LegacyMessages(rows[j].raw).value);
    var torn := Torn(half, sid, lines, m);
    assert rows == rows[..j] + rows[j..] && rows[j..][0] == rows[j] && rows[j..][1..] == rows[j + 1..];
    RowsOneByOne(db, rows[..j], rows[j..]);
    AllRowsSettled(db, rows[..j]);
    forall i | 0 <= i < j ensures Settled(torn, rows[..j][i]) {
      TornKeepsSettled(half, sid, lines, m, rows[..j][i]);
    }
    SettledRowsAreFixed(torn, rows[..j]);
    RowsOneByOne(torn, rows[..j], rows[j..]);
    TornRow(half, rows[j], m);
  }

  // --------------------------------------------------------- when it succeeds

  /** A row that can be imported into the given state. */
  predicate Importable(db: Db, row: CtxRow)
  {
    && row.sid.Some? && row.sid.value != "" && LegacyMessages(row.raw).Some?
    && Readable(History(db, row.sid.value))
    && (History(db, row.sid.value) == [] || Lines(LegacyMessages(row.raw).value) <= History(db, row.sid.value))
  }

  predicate DistinctSids(rows: seq<CtxRow>)
  {
    forall i, j :: 0 <= i < j < |rows| ==> rows[i].sid != rows[j].sid
  }

  /** With unique sids the import goes through exactly if every single row can be
      imported into the state found, and then each empty history becomes its transcript. */
  lemma {:induction false} ImportSucceedsIff(db: Db, rows: seq<CtxRow>)
    requires DistinctSids(rows)
    ensures ImportRows(db, rows).Success? <==> forall i :: 0 <= i < |rows| ==> Importable(db, rows[i])
    decreases rows
  {
    if rows != [] {
      if Importable(db, rows[0]) {
        var next := ImportRow(db, rows[0]).value;
        assert forall i :: 0 <= i < |rows[1..]| ==> rows[1..][i] == rows[i + 1];
        forall i | 1 <= i < |rows|
          ensures Importable(next, rows[i]) <==> Importable(db, rows[i])
        {
        }
        ImportSucceedsIff(next, rows[1..]);
      }
    }
  }

  // ---------------------------------------------------------------- the method

  /** The SQLite file. One call of Migrate is one transaction: on failure it is rolled
      back. `fault` names a row at which a write fails, if any. */
  class SessionDatabase {
    var ctx: Option<seq<CtxRow>>
    var histories: map<SessionId, seq<Line>>
    var sessions: set<SessionId>
    var titles: map<SessionId, Option<string>>
    var completed: bool

    function State(): Db
      reads this
    {
      Db(ctx, histories, sessions, titles, completed)
    }

    constructor (db: Db)
      ensures State() == db
    {
      ctx, histories, sessions, titles, completed := db.ctx, db.histories, db.sessions, db.titles, db.completed;
    }

    method Restore(db: Db)
      modifies this
      ensures State() == db
    {
      ctx, histories, sessions, titles, completed := db.ctx, db.histories, db.sessions, db.titles, db.completed;
    }

    /** All or nothing: the data of every row and the marker, or the state before. */
    method Migrate(fault: Option<nat>) returns (r: Result<nat, ImportError>)
      modifies this
      ensures old(ctx).None? || old(completed) ==> r == Success(0) && State() == old(State())
      ensures r.Failure? ==> State() == old(State())
      ensures old(ctx).Some? && !old(completed) && r.Success? ==>
        && r.value == |old(ctx).value|
        && ImportRows(old(State()), old(ctx).value).Success?
        && State() == ImportRows(old(State()), old(ctx).value).value.(completed := true)
      ensures old(ctx).Some? && !old(completed) && fault.None? ==>
        (r.Success? <==> ImportRows(old(State()), old(ctx).value).Success?)
    {
      if ctx.None? || completed {
        return Success(0);
      }
      var snapshot := State();
      var rows := ctx.value;
      for i := 0 to |rows|
        invariant ctx == snapshot.ctx && completed == snapshot.completed
        invariant ImportRows(snapshot, rows) == ImportRows(State(), rows[i..])
      {
        var row := rows[i];
        ghost var before := State();
        assert rows[i..][1..] == rows[i + 1..];
        if row.sid.None? || row.sid.value == "" {
          Restore(snapshot);
          return Failure(InvalidSessionId);
        }
        var messages := LegacyMessages(row.raw);
        if messages.None? {
          Restore(snapshot);
          return Failure(InvalidTranscript);
        }
        var sid := row.sid.value;
        var existing := if sid in histories then histories[sid] else [];
        if !Readable(existing) {
          Restore(snapshot);
          return Failure(CorruptHistory);
        }
        if existing != [] {
          if !(Lines(messages.value) <= existing) {
            Restore(snapshot);
            return Failure(Conflict);
          }
        } else {
          sessions := sessions + {sid};
          histories := histories[sid := Lines(messages.value)];
        }
        if fault == Some(i) {
          Restore(snapshot);
          return Failure(WriteFault);
        }
        titles := titles[sid := Coalesce(if sid in titles then titles[sid] else None, row.title)];
        assert ImportRow(before, row) == Success(State());
      }
      completed := true;
      return Success(|rows|);
    }
  }
}

/** The execution state of the toolkit's `Db` class: the connection, the
    outcome of the last query, the one-shot exception flag and the query trace.
    The PHP class keeps all of this in static fields; here one `Db` object
    stands for them, and the pure `State` value with its step functions states
    what each operation does to it. */
module Database {
  import opened Php

  /** A database handle, as the connector's `connection()` returns it. */
  datatype Handle = Handle(id: nat)

  /** What `new DbConnector($params)` provides: the database type, the table
      prefix and the established connection. */
  datatype Connector = Connector(dbType: string, prefix: string, connection: Handle)

  /** The exception object a failing prepare or execute throws. */
  datatype Error = Error(message: string)

  /** The mode `setFetchMode` sets: the flags and, unless rows are fetched as
      arrays, the class the rows are fetched into. */
  datatype FetchMode = FetchMode(flags: nat, className: Option<string>)

  /** A PDO statement: the SQL it was prepared from and its fetch mode. */
  datatype Statement = Statement(queryString: string, mode: Option<FetchMode>)

  /** What the driver does with one query. `prepare` may throw (nothing is
      assigned to `$statement`); `execute` may throw after the statement was
      assigned; or both succeed, and the statement reports its row count and
      the connection its last insert id. */
  datatype Attempt =
    | PrepareFailed(err: Error)
    | ExecuteFailed(stmt: Statement, err: Error)
    | Executed(stmt: Statement, rowCount: int, insertId: string)

  type Bindings = seq<Value>

  /** One fetched row, column name to value. */
  type Row = seq<(string, Value)>

  /** One element of `$trace`. */
  datatype Entry = Entry(query: string, bindings: Bindings, error: Option<Error>)

  /** `$lastResult`: nothing yet, the boolean of `execute`, the fetched rows
      themselves, or the rows wrapped in an iterator class. */
  datatype Result = Nothing | Flag(ok: bool) | Rows(rows: seq<Row>) | Collection(iteratorClass: string, rows: seq<Row>)

  /** How a call ends: it returns a value or it throws. */
  datatype Return<T> = Returned(value: T) | Thrown(error: Error)

  datatype State = State(
    connector: Option<Connector>,
    connection: Option<Handle>,
    dbType: Option<string>,
    prefix: Option<string>,
    statement: Option<Statement>,
    affected: Option<int>,
    lastId: Option<string>,
    lastQuery: Option<string>,
    lastResult: Result,
    lastError: Option<Error>,
    fail: Value,
    trace: seq<Entry>)

  /** A state with the outcome of one call. */
  datatype Step<T> = Step(state: State, result: Return<T>)

  /** The fields before any call: all null, `$fail` false, `$trace` empty. */
  const Initial: State :=
    State(None, None, None, None, None, None, None, None, Nothing, None, Bool(false), [])

  /** `Db::$fail == true`: PHP's loose comparison with true converts the flag
      to a boolean, which is exactly being non-empty. */
  predicate Armed(fail: Value) {
    !IsEmpty(fail)
  }

  // ---------------------------------------------------------------------------
  // connect, connection, fail, trace

  /** `connect($params)`: the connector's type, prefix and connection are
      stored; nothing else changes. */
  function ConnectStep(s: State, c: Connector): (r: State)
    ensures r.connection == Some(c.connection) && r.connector == Some(c)
    ensures r.dbType == Some(c.dbType) && r.prefix == Some(c.prefix)
    ensures r.(connector := s.connector, connection := s.connection, dbType := s.dbType, prefix := s.prefix) == s
  {
    s.(connector := Some(c), dbType := Some(c.dbType), prefix := Some(c.prefix), connection := Some(c.connection))
  }

  /** `connection()`: the stored connection, or a fresh one from the default
      connector when there is none yet. */
  function ConnectionStep(s: State, defaults: Connector): (r: (State, Handle))
    ensures r.0.connection == Some(r.1)
    ensures s.connection.Some? ==> r == (s, s.connection.value)
    ensures s.connection.None? ==> r.0 == ConnectStep(s, defaults) && r.1 == defaults.connection
  {
    if s.connection.Some? then (s, s.connection.value)
    else (ConnectStep(s, defaults), defaults.connection)
  }

  /** Asking for the connection a second time changes nothing and gives the
      same handle. */
  lemma ConnectionOnce(s: State, defaults: Connector, other: Connector)
    ensures ConnectionStep(ConnectionStep(s, defaults).0, other) == ConnectionStep(s, defaults)
  {
  }

  /** `fail($fail)`; only the flag changes. */
  function FailStep(s: State, fail: Value): (r: State)
    ensures Armed(r.fail) <==> !IsEmpty(fail)
    ensures r.(fail := s.fail) == s
  {
    s.(fail := fail)
  }

  /** `trace($data)`: the entry becomes the new last element of the trace, the
      earlier ones stay; nothing else changes. */
  function TraceStep(s: State, e: Entry): (r: State)
    ensures |r.trace| == |s.trace| + 1 && r.trace[|s.trace|] == e
    ensures s.trace <= r.trace
    ensures r.(trace := s.trace) == s
  {
    s.(trace := s.trace + [e])
  }

  // ---------------------------------------------------------------------------
  // hit

  /** What `hit` does once the outcome fields are set: record the trace entry,
      disarm the flag and report whether there was no error. */
  function Finish(s: State, bindings: Bindings): (r: Step<bool>)
    requires s.lastQuery.Some?
    ensures r.result == Returned(s.lastError.None?)
    ensures r.state == TraceStep(s, Entry(s.lastQuery.value, bindings, s.lastError)).(fail := Bool(false))
  {
    Step(TraceStep(s, Entry(s.lastQuery.value, bindings, s.lastError)).(fail := Bool(false)), Returned(s.lastError.None?))
  }

  /** The `catch` block of `hit`. */
  function Caught(s: State, query: string, bindings: Bindings, e: Error): (r: Step<bool>)
    ensures r.state.affected == Some(0) && r.state.lastError == Some(e)
    ensures r.state.lastId == None && r.state.lastQuery == Some(query)
    ensures Armed(s.fail) ==> r.result == Thrown(e) && r.state.trace == s.trace && r.state.fail == s.fail
    ensures !Armed(s.fail) ==>
      r.result == Returned(false) && r.state.fail == Bool(false)
      && r.state.trace == s.trace + [Entry(query, bindings, Some(e))]
    ensures r.state.statement == s.statement && r.state.connection == s.connection
    ensures r.state.connector == s.connector && r.state.dbType == s.dbType && r.state.prefix == s.prefix
    ensures r.state.lastResult == s.lastResult
  {
    var t := s.(affected := Some(0), lastError := Some(e), lastId := None, lastQuery := Some(query));
    if Armed(s.fail) then Step(t, Thrown(e)) else Finish(t, bindings)
  }

  /** `hit($query, $bindings)`: prepare and execute through the connection and
      record the outcome. */
  function HitStep(s: State, query: string, bindings: Bindings, defaults: Connector, attempt: Attempt): (r: Step<bool>)
    ensures r.state.connection.Some?
    ensures var c := ConnectionStep(s, defaults).0;
      r.state.connector == c.connector && r.state.connection == c.connection
      && r.state.dbType == c.dbType && r.state.prefix == c.prefix
    ensures r.state.lastResult == s.lastResult
    ensures r.result == Returned(true) <==> attempt.Executed?
    // success
    ensures attempt.Executed? ==>
      r.state.statement == Some(attempt.stmt) && r.state.affected == Some(attempt.rowCount)
      && r.state.lastId == Some(attempt.insertId) && r.state.lastError == None
      && r.state.lastQuery == Some(attempt.stmt.queryString)
      && r.state.trace == s.trace + [Entry(attempt.stmt.queryString, bindings, None)]
      && r.state.fail == Bool(false)
    // failure: the error is stored either way
    ensures !attempt.Executed? ==>
      r.state.affected == Some(0) && r.state.lastId == None
      && r.state.lastError == Some(attempt.err) && r.state.lastQuery == Some(query)
    ensures attempt.ExecuteFailed? ==> r.state.statement == Some(attempt.stmt)
    ensures attempt.PrepareFailed? ==> r.state.statement == s.statement
    // failure with the flag down: false, one trace entry, flag down
    ensures !attempt.Executed? && !Armed(s.fail) ==>
      r.result == Returned(false) && r.state.fail == Bool(false)
      && r.state.trace == s.trace + [Entry(query, bindings, Some(attempt.err))]
    // failure with the flag armed: rethrown before the trace and the reset
    ensures !attempt.Executed? && Armed(s.fail) ==>
      r.result == Thrown(attempt.err) && r.state.trace == s.trace && r.state.fail == s.fail
  {
    var c := ConnectionStep(s, defaults).0;
    match attempt
    case Executed(stmt, n, id) =>
      Finish(c.(statement := Some(stmt), affected := Some(n), lastId := Some(id),
                lastError := None, lastQuery := Some(stmt.queryString)), bindings)
    case PrepareFailed(e) => Caught(c, query, bindings, e)
    case ExecuteFailed(stmt, e) => Caught(c.(statement := Some(stmt)), query, bindings, e)
  }

  /** A `hit` that returns leaves one more trace entry, the earlier ones
      untouched, and the flag down; one that throws leaves the trace alone. */
  lemma HitTrace(s: State, query: string, bindings: Bindings, defaults: Connector, attempt: Attempt)
    ensures var r := HitStep(s, query, bindings, defaults, attempt);
      (r.result.Returned? ==>
         |r.state.trace| == |s.trace| + 1 && s.trace <= r.state.trace
         && r.state.trace[|s.trace|] == Entry(r.state.lastQuery.value, bindings, r.state.lastError)
         && !Armed(r.state.fail))
      && (r.result.Thrown? ==> r.state.trace == s.trace)
  {
  }

  /** The flag is one-shot: armed before a query that succeeds, it no longer
      makes the next failing query throw. */
  lemma FailIsOneShot(s: State, defaults: Connector, q1: string, b1: Bindings, stmt: Statement,
                      n: int, id: string, q2: string, b2: Bindings, e: Error)
    ensures var armed := FailStep(s, Bool(true));
      var first := HitStep(armed, q1, b1, defaults, Executed(stmt, n, id));
      HitStep(first.state, q2, b2, defaults, PrepareFailed(e)).result == Returned(false)
  {
  }

  /** An armed flag stays armed when the failing query throws, because the
      exception leaves `hit` before the reset: a second failing query throws
      too, and neither leaves a trace entry. */
  lemma ArmedFlagSurvivesThrow(s: State, defaults: Connector, q1: string, b1: Bindings, e1: Error,
                               q2: string, b2: Bindings, e2: Error)
    ensures var armed := FailStep(s, Bool(true));
      var first := HitStep(armed, q1, b1, defaults, PrepareFailed(e1));
      var second := HitStep(first.state, q2, b2, defaults, PrepareFailed(e2));
      first.result == Thrown(e1) && second.result == Thrown(e2) && second.state.trace == s.trace
  {
  }

  // ---------------------------------------------------------------------------
  // execute and query

  /** `execute($query, $bindings)`: hit's boolean, also stored as the last
      result; a throw leaves the last result as it was. */
  function ExecuteStep(s: State, query: string, bindings: Bindings, defaults: Connector, attempt: Attempt): (r: Step<bool>)
    ensures var h := HitStep(s, query, bindings, defaults, attempt);
      r.result == h.result
      && (h.result.Returned? ==> r.state == h.state.(lastResult := Flag(h.result.value)))
      && (h.result.Thrown? ==> r.state == h.state)
  {
    var h := HitStep(s, query, bindings, defaults, attempt);
    match h.result
    case Returned(ok) => Step(h.state.(lastResult := Flag(ok)), h.result)
    case Thrown(_) => h
  }

  /** The options `query()` takes; an absent key is `None`. */
  datatype Params = Params(flag: Option<nat>, fetchMethod: Option<string>, fetch: Option<string>, iteratorClass: Option<string>)

  datatype Options = Options(flag: Option<nat>, fetchMethod: string, fetch: string, iteratorClass: string)

  /** `array_merge($defaults, $params)` over the four option keys. */
  function MergeOptions(p: Params): (o: Options)
    ensures o.flag == p.flag
    ensures o.fetchMethod == p.fetchMethod.GetOr("fetchAll") && o.fetch == p.fetch.GetOr("Object")
    ensures o.iteratorClass == p.iteratorClass.GetOr("Collection")
  {
    Options(p.flag, p.fetchMethod.GetOr("fetchAll"), p.fetch.GetOr("Object"), p.iteratorClass.GetOr("Collection"))
  }

  /** `$defaults` of `query()` as a PHP array. */
  const QueryDefaults: seq<(string, Value)> :=
    [("flag", Null), ("method", Str("fetchAll")), ("fetch", Str("Object")), ("iterator", Str("Collection"))]

  /** The entry for one option, or nothing when it is absent. */
  function Given(key: string, v: Option<Value>): seq<(string, Value)> {
    if v.Some? then [(key, v.value)] else []
  }

  /** `$params` as a PHP array holding the options that are given. */
  function ParamsArray(p: Params): seq<(string, Value)> {
    Given("flag", if p.flag.Some? then Some(Int(p.flag.value)) else None)
    + Given("method", if p.fetchMethod.Some? then Some(Str(p.fetchMethod.value)) else None)
    + Given("fetch", if p.fetch.Some? then Some(Str(p.fetch.value)) else None)
    + Given("iterator", if p.iteratorClass.Some? then Some(Str(p.iteratorClass.value)) else None)
  }

  lemma GivenLookup(key: string, v: Option<Value>, k: string)
    ensures Lookup(Given(key, v), k) == if k == key then v else None
  {
    if v.Some? {
      assert [(key, v.value)][1..] == [];
    }
  }

  lemma {:induction false} ParamsArrayLookup(p: Params, k: string)
    requires k == "flag" || k == "method" || k == "fetch" || k == "iterator"
    ensures Lookup(ParamsArray(p), k) ==
      if k == "flag" then (if p.flag.Some? then Some(Int(p.flag.value)) else None)
      else if k == "method" then (if p.fetchMethod.Some? then Some(Str(p.fetchMethod.value)) else None)
      else if k == "fetch" then (if p.fetch.Some? then Some(Str(p.fetch.value)) else None)
      else (if p.iteratorClass.Some? then Some(Str(p.iteratorClass.value)) else None)
  {
    var a := Given("flag", if p.flag.Some? then Some(Int(p.flag.value)) else None);
    var b := Given("method", if p.fetchMethod.Some? then Some(Str(p.fetchMethod.value)) else None);
    var c := Given("fetch", if p.fetch.Some? then Some(Str(p.fetch.value)) else None);
    var d := Given("iterator", if p.iteratorClass.Some? then Some(Str(p.iteratorClass.value)) else None);
    GivenLookup("flag", if p.flag.Some? then Some(Int(p.flag.value)) else None, k);
    GivenLookup("method", if p.fetchMethod.Some? then Some(Str(p.fetchMethod.value)) else None, k);
    GivenLookup("fetch", if p.fetch.Some? then Some(Str(p.fetch.value)) else None, k);
    GivenLookup("iterator", if p.iteratorClass.Some? then Some(Str(p.iteratorClass.value)) else None, k);
    LookupAppend(a, b, k);
    LookupAppend(a + b, c, k);
    LookupAppend(a + b + c, d, k);
  }

  /** `MergeOptions` is `array_merge($defaults, $params)` read key by key. */
  lemma MergeOptionsIsMerge(p: Params)
    ensures var m := Merge(QueryDefaults, ParamsArray(p));
      var o := MergeOptions(p);
      Lookup(m, "flag") == Some(if o.flag.Some? then Int(o.flag.value) else Null)
      && Lookup(m, "method") == Some(Str(o.fetchMethod))
      && Lookup(m, "fetch") == Some(Str(o.fetch))
      && Lookup(m, "iterator") == Some(Str(o.iteratorClass))
  {
    var given := ParamsArray(p);
    DefaultsLookup();
    MergeLookup(QueryDefaults, given, "flag");
    MergeLookup(QueryDefaults, given, "method");
    MergeLookup(QueryDefaults, given, "fetch");
    MergeLookup(QueryDefaults, given, "iterator");
    ParamsArrayLookup(p, "flag");
    ParamsArrayLookup(p, "method");
    ParamsArrayLookup(p, "fetch");
    ParamsArrayLookup(p, "iterator");
  }

  lemma DefaultsLookup()
    ensures Lookup(QueryDefaults, "flag") == Some(Null)
    ensures Lookup(QueryDefaults, "method") == Some(Str("fetchAll"))
    ensures Lookup(QueryDefaults, "fetch") == Some(Str("Object"))
    ensures Lookup(QueryDefaults, "iterator") == Some(Str("Collection"))
  {
    var d := QueryDefaults;
    assert d[1..][1..][1..][1..] == [];
  }

  const FETCH_ASSOC: nat := 2
  const FETCH_CLASS: nat := 8

  /** The default fetch flag: associative arrays when rows are fetched as
      arrays, class instances otherwise. */
  function BaseFlag(o: Options): nat {
    if o.fetch == "array" then FETCH_ASSOC else FETCH_CLASS
  }

  /** The extra flag, 0 when absent. */
  function ExtraFlag(o: Options): nat {
    if o.flag.Some? then o.flag.value else 0
  }

  /** The flags handed to `setFetchMode`: the default flag, or'ed with the extra
      flag unless that is empty. */
  function FetchFlags(o: Options): (f: nat)
    ensures f == BitOr(BaseFlag(o), ExtraFlag(o))
  {
    var flags := if o.fetch == "array" then FETCH_ASSOC else FETCH_CLASS;
    if o.flag.Some? && o.flag.value != 0 then BitOr(flags, o.flag.value)
    else
      BitOrZero(flags);
      flags
  }

  /** A bit is set in the fetch flags exactly when it is set in the default
      flag or in the extra flag. */
  lemma FetchFlagsBits(o: Options, k: nat)
    ensures Bit(FetchFlags(o), k) <==> Bit(BaseFlag(o), k) || Bit(ExtraFlag(o), k)
  {
    BitOrBits(BaseFlag(o), ExtraFlag(o), k);
  }

  /** Without an extra flag only the default one is set. */
  lemma FetchFlagsPlain(o: Options)
    requires o.flag.None? || o.flag == Some(0)
    ensures FetchFlags(o) == BaseFlag(o)
  {
    BitOrZero(BaseFlag(o));
  }

  /** `setFetchMode`, with the class name only when not fetching arrays. */
  function Mode(o: Options): (m: FetchMode)
    ensures m.flags == FetchFlags(o)
    ensures m.className.None? <==> o.fetch == "array"
    ensures m.className.Some? ==> m.className.value == o.fetch
  {
    if o.fetch == "array" then FetchMode(FetchFlags(o), None) else FetchMode(FetchFlags(o), Some(o.fetch))
  }

  /** `query($query, $bindings, $params)`; `methods` gives what each fetch
      method of the statement returns. A failing hit returns false (or
      throws) and leaves the last result alone; a successful one sets the fetch
      mode and stores either the rows or the rows wrapped in the iterator. */
  function QueryStep(s: State, query: string, bindings: Bindings, params: Params, defaults: Connector,
                     attempt: Attempt, methods: string -> seq<Row>): (r: Step<Result>)
    ensures var h := HitStep(s, query, bindings, defaults, attempt);
      (h.result.Thrown? ==> r.result == Thrown(h.result.error) && r.state == h.state)
      && (h.result == Returned(false) ==> r.result == Returned(Flag(false)) && r.state == h.state)
    ensures attempt.Executed? ==>
      var o := MergeOptions(params);
      var rows := methods(o.fetchMethod);
      r.result.Returned? && r.state.lastResult == r.result.value
      && r.state.statement == Some(attempt.stmt.(mode := Some(Mode(o))))
      && (o.iteratorClass == "array" ==> r.result.value == Rows(rows))
      && (o.iteratorClass != "array" ==> r.result.value == Collection(o.iteratorClass, rows))
      && r.state.(statement := None, lastResult := Nothing)
         == HitStep(s, query, bindings, defaults, attempt).state.(statement := None, lastResult := Nothing)
  {
    var o := MergeOptions(params);
    var h := HitStep(s, query, bindings, defaults, attempt);
    match h.result
    case Thrown(e) => Step(h.state, Thrown(e))
    case Returned(ok) =>
      if !ok then Step(h.state, Returned(Flag(false)))
      else
        var t := h.state.(statement := Some(attempt.stmt.(mode := Some(Mode(o)))));
        var rows := methods(o.fetchMethod);
        var res := if o.iteratorClass == "array" then Rows(rows) else Collection(o.iteratorClass, rows);
        Step(t.(lastResult := res), Returned(res))
  }

  // ---------------------------------------------------------------------------
  // Sequences of calls

  datatype Call =
    | CallConnect(connector: Connector)
    | CallFail(flag: Value)
    | CallTrace(entry: Entry)
    | CallExecute(query: string, bindings: Bindings, attempt: Attempt)
    | CallQuery(query: string, bindings: Bindings, params: Params, attempt: Attempt, methods: string -> seq<Row>)

  /** The state after one call, whether it returned or threw. */
  function Apply(s: State, defaults: Connector, c: Call): State {
    match c
    case CallConnect(k) => ConnectStep(s, k)
    case CallFail(v) => FailStep(s, v)
    case CallTrace(e) => TraceStep(s, e)
    case CallExecute(q, b, a) => ExecuteStep(s, q, b, defaults, a).state
    case CallQuery(q, b, p, a, m) => QueryStep(s, q, b, p, defaults, a, m).state
  }

  function Run(s: State, defaults: Connector, calls: seq<Call>): State
    decreases |calls|
  {
    if |calls| == 0 then s else Run(Apply(s, defaults, calls[0]), defaults, calls[1..])
  }

  /** No call removes or rewrites a trace entry. */
  lemma ApplyKeepsTrace(s: State, defaults: Connector, c: Call)
    ensures s.trace <= Apply(s, defaults, c).trace
  {
    match c
    case CallExecute(q, b, a) => HitTrace(s, q, b, defaults, a);
    case CallQuery(q, b, p, a, m) => HitTrace(s, q, b, defaults, a);
    case _ =>
  }

  /** The trace is append-only over any sequence of calls. */
  lemma {:induction false} RunKeepsTrace(s: State, defaults: Connector, calls: seq<Call>)
    ensures s.trace <= Run(s, defaults, calls).trace
    decreases |calls|
  {
    if |calls| > 0 {
      var t := Apply(s, defaults, calls[0]);
      ApplyKeepsTrace(s, defaults, calls[0]);
      RunKeepsTrace(t, defaults, calls[1..]);
    }
  }

  // ---------------------------------------------------------------------------
  // The class

  class Db {
    var connector: Option<Connector>
    var connection: Option<Handle>
    var dbType: Option<string>
    var prefix: Option<string>
    var statement: Option<Statement>
    var affected: Option<int>
    var lastId: Option<string>
    var lastQuery: Option<string>
    var lastResult: Result
    var lastError: Option<Error>
    var fail: Value
    var trace: seq<Entry>

    function Snapshot(): State
      reads this
    {
      State(connector, connection, dbType, prefix, statement, affected, lastId, lastQuery,
            lastResult, lastError, fail, trace)
    }

    constructor ()
      ensures Snapshot() == Initial
    {
      connector, connection, dbType, prefix := None, None, None, None;
      statement, affected, lastId, lastQuery := None, None, None, None;
      lastResult, lastError := Nothing, None;
      fail := Bool(false);
      trace := [];
    }

    /** `Db::affected()`. */
    function Affected(): Option<int> reads this { affected }

    /** `Db::lastId()`. */
    function LastId(): Option<string> reads this { lastId }

    /** `Db::lastQuery()`. */
    function LastQuery(): Option<string> reads this { lastQuery }

    /** `Db::lastResult()`. */
    function LastResult(): Result reads this { lastResult }

    /** `Db::lastError()`. */
    function LastError(): Option<Error> reads this { lastError }

    /** `Db::trace()` without an argument: the whole log. */
    function Trace(): seq<Entry> reads this { trace }

    method Connect(c: Connector) returns (h: Handle)
      modifies this
      ensures Snapshot() == ConnectStep(old(Snapshot()), c)
      ensures h == c.connection
    {
      connector := Some(c);
      dbType := Some(c.dbType);
      prefix := Some(c.prefix);
      connection := Some(c.connection);
      h := c.connection;
    }

    method Connection(defaults: Connector) returns (h: Handle)
      modifies this
      ensures (Snapshot(), h) == ConnectionStep(old(Snapshot()), defaults)
    {
      if connection.Some? {
        h := connection.value;
      } else {
        h := Connect(defaults);
      }
    }

    method Fail(flag: Value)
      modifies this
      ensures Snapshot() == FailStep(old(Snapshot()), flag)
    {
      fail := flag;
    }

    /** `Db::trace($data)`. */
    method Record(e: Entry)
      modifies this
      ensures Snapshot() == TraceStep(old(Snapshot()), e)
    {
      trace := trace + [e];
    }

    /** `hit($query, $bindings)`: the `try` block, then the `catch` block or
        the trace entry and the reset. */
    method Hit(query: string, bindings: Bindings, defaults: Connector, attempt: Attempt) returns (r: Return<bool>)
      modifies this
      ensures Step(Snapshot(), r) == HitStep(old(Snapshot()), query, bindings, defaults, attempt)
    {
      var h := Connection(defaults);
      match attempt {
        case Executed(stmt, n, id) =>
          statement := Some(stmt);
          affected := Some(n);
          h := Connection(defaults);
          lastId := Some(id);
          lastError := None;
          lastQuery := Some(stmt.queryString);
          r := Conclude(bindings);
        case PrepareFailed(e) =>
          r := Catch(query, bindings, e);
        case ExecuteFailed(stmt, e) =>
          statement := Some(stmt);
          r := Catch(query, bindings, e);
      }
    }

    /** The `catch` block: store the error and rethrow it when the flag is
        armed; otherwise go on to the trace entry and the reset. */
    method Catch(query: string, bindings: Bindings, e: Error) returns (r: Return<bool>)
      modifies this
      ensures Step(Snapshot(), r) == Caught(old(Snapshot()), query, bindings, e)
    {
      affected := Some(0);
      lastError := Some(e);
      lastId := None;
      lastQuery := Some(query);
      if Armed(fail) {
        return Thrown(e);
      }
      r := Conclude(bindings);
    }

    /** The end of `hit`: the trace entry, the reset of the flag and the
        result. */
    method Conclude(bindings: Bindings) returns (r: Return<bool>)
      requires lastQuery.Some?
      modifies this
      ensures Step(Snapshot(), r) == Finish(old(Snapshot()), bindings)
    {
      Record(Entry(lastQuery.value, bindings, lastError));
      fail := Bool(false);
      r := Returned(lastError.None?);
    }

    method Execute(query: string, bindings: Bindings, defaults: Connector, attempt: Attempt) returns (r: Return<bool>)
      modifies this
      ensures Step(Snapshot(), r) == ExecuteStep(old(Snapshot()), query, bindings, defaults, attempt)
    {
      r := Hit(query, bindings, defaults, attempt);
      if r.Returned? {
        lastResult := Flag(r.value);
      }
    }

    method Query(query: string, bindings: Bindings, params: Params, defaults: Connector,
                 attempt: Attempt, methods: string -> seq<Row>) returns (r: Return<Result>)
      modifies this
      ensures Step(Snapshot(), r) == QueryStep(old(Snapshot()), query, bindings, params, defaults, attempt, methods)
    {
      ghost var s := Snapshot();
      var options := MergeOptions(params);
      var ok := Hit(query, bindings, defaults, attempt);
      ghost var h := HitStep(s, query, bindings, defaults, attempt);
      assert Snapshot() == h.state && ok == h.result;
      if ok.Thrown? {
        return Thrown(ok.error);
      }
      if !ok.value {
        return Returned(Flag(false));
      }
      assert statement == Some(attempt.stmt);
      var results := Fetch(options, methods);
      r := Returned(results);
    }

    /** The part of `query()` after a successful hit: set the fetch mode, call
        the fetch method and store its rows, wrapped unless the iterator is
        'array'. */
    method Fetch(options: Options, methods: string -> seq<Row>) returns (res: Result)
      requires statement.Some?
      modifies this
      ensures res == (if options.iteratorClass == "array" then Rows(methods(options.fetchMethod))
                      else Collection(options.iteratorClass, methods(options.fetchMethod)))
      ensures Snapshot() == old(Snapshot()).(statement := Some(old(statement).value.(mode := Some(Mode(options)))),
                                            lastResult := res)
    {
      var flags := if options.fetch == "array" then FETCH_ASSOC else FETCH_CLASS;
      if options.flag.Some? && options.flag.value != 0 {
        flags := BitOr(flags, options.flag.value);
      }
      assert flags == FetchFlags(options);
      var stmt := statement.value;
      if options.fetch == "array" {
        statement := Some(stmt.(mode := Some(FetchMode(flags, None))));
      } else {
        statement := Some(stmt.(mode := Some(FetchMode(flags, Some(options.fetch)))));
      }
      var results := methods(options.fetchMethod);
      if options.iteratorClass == "array" {
        lastResult := Rows(results);
      } else {
        lastResult := Collection(options.iteratorClass, results);
      }
      res := lastResult;
    }
  }
}

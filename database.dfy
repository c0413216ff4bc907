/** The persistent store the service delegates to (internal/database), with
    the behaviour of its Postgres implementation: rows of the `examples`
    table, a connection that may fail, and a log of the calls made to it. */
module Database {
  import opened Wrappers
  import opened Entities
  import Constants

  /** The two error kinds of `pkg/errors` the store returns. */
  datatype Error = NotFound(message: string) | InternalServerError(message: string)

  /** One call made on the `database.Database` interface. */
  datatype StoreCall =
    | CreateExampleCall(description: string)
    | GetExampleByIdCall(id: string)
    | GetExamplesCall

  /** `SELECT ... WHERE id = $1` read with `QueryRow`: the first matching row. */
  function Find(rows: seq<Example>, id: string): (r: Option<Example>)
    ensures r.Some? ==> r.value in rows && r.value.id == id
    ensures r.None? <==> forall i :: 0 <= i < |rows| ==> rows[i].id != id
  {
    if rows == [] then None
    else if rows[0].id == id then Some(rows[0])
    else Find(rows[1..], id)
  }

  /** A row appended under a fresh id is what a later lookup of that id finds. */
  lemma {:induction false} FindAppended(rows: seq<Example>, e: Example)
    requires Find(rows, e.id).None?
    ensures Find(rows + [e], e.id) == Some(e)
  {
    if rows != [] {
      assert (rows + [e])[1..] == rows[1..] + [e];
      FindAppended(rows[1..], e);
    }
  }

  /** Appending a row leaves lookups of every other id unchanged. */
  lemma {:induction false} FindAppendedOther(rows: seq<Example>, e: Example, id: string)
    requires id != e.id
    ensures Find(rows + [e], id) == Find(rows, id)
  {
    if rows != [] {
      assert (rows + [e])[1..] == rows[1..] + [e];
      FindAppendedOther(rows[1..], e, id);
    }
  }

  class Store {
    /** The `examples` table, in the order an unordered `SELECT` yields it. */
    var rows: seq<Example>
    /** The driver error every statement fails with while the connection is
        broken; `None` while it works. */
    var fault: Option<string>
    /** Every call made so far, oldest first. */
    var calls: seq<StoreCall>

    constructor (rows: seq<Example>, fault: Option<string>)
      ensures this.rows == rows && this.fault == fault && calls == []
    {
      this.rows := rows;
      this.fault := fault;
      calls := [];
    }

    /** The answer `CreateExample` gives in the current state. */
    function CreateResponse(description: string, token: string, now: int): Result<Example, Error>
      reads this`fault
    {
      if fault.Some? then
        Err(InternalServerError("database.postgres.dbClient.CreateExample: failed to create description: " + fault.value))
      else
        Ok(Example(Constants.GenerateDataPrefixWithUlid(Constants.Example, token), description, now, now))
    }

    /** The answer `GetExampleByID` gives in the current state. */
    function ByIdResponse(id: string): Result<Example, Error>
      reads this`rows, this`fault
    {
      if fault.Some? then
        Err(InternalServerError("database.postgres.dbClient.GetExampleByID: failed to get example by id: " + fault.value))
      else
        match Find(rows, id)
        case None => Err(NotFound("database.postgres.dbClient.GetExampleByID: example with id: " + id + " not found"))
        case Some(e) => Ok(e)
    }

    /** The answer `GetExamples` gives in the current state. */
    function ListResponse(): Result<seq<Example>, Error>
      reads this`rows, this`fault
    {
      if fault.Some? then
        Err(InternalServerError("database.postgres.dbClient.GetExamples: failed to get examples: " + fault.value))
      else
        Ok(rows)
    }

    /** `INSERT` of a new row; `token` and `now` stand for `ulid.Make()` and
        `time.Now()`. */
    method CreateExample(description: string, token: string, now: int) returns (r: Result<Example, Error>)
      requires Constants.IsUlidText(token)
      modifies this
      ensures r == old(CreateResponse(description, token, now))
      ensures r.Ok? ==> Constants.Example.IsValid(r.value.id) && r.value.description == description
      ensures r.Ok? ==> r.value.createdAt == r.value.updatedAt == now
      ensures rows == if r.Ok? then old(rows) + [r.value] else old(rows)
      ensures fault == old(fault) && calls == old(calls) + [CreateExampleCall(description)]
    {
      calls := calls + [CreateExampleCall(description)];
      var id := Constants.GenerateDataPrefixWithUlid(Constants.Example, token);
      Constants.UlidTextLength(token);
      Constants.GeneratedIsValid(Constants.Example, token);
      if fault.Some? {
        return Err(InternalServerError("database.postgres.dbClient.CreateExample: failed to create description: " + fault.value));
      }
      var e := Example(id, description, now, now);
      rows := rows + [e];
      return Ok(e);
    }

    method GetExampleByID(id: string) returns (r: Result<Example, Error>)
      modifies this`calls
      ensures r == ByIdResponse(id)
      ensures r.Ok? ==> r.value.id == id && r.value in rows
      ensures calls == old(calls) + [GetExampleByIdCall(id)]
    {
      calls := calls + [GetExampleByIdCall(id)];
      if fault.Some? {
        return Err(InternalServerError("database.postgres.dbClient.GetExampleByID: failed to get example by id: " + fault.value));
      }
      var found := Find(rows, id);
      if found.None? {
        return Err(NotFound("database.postgres.dbClient.GetExampleByID: example with id: " + id + " not found"));
      }
      return Ok(found.value);
    }

    method GetExamples() returns (r: Result<seq<Example>, Error>)
      modifies this`calls
      ensures r == ListResponse()
      ensures r.Ok? ==> r.value == rows
      ensures calls == old(calls) + [GetExamplesCall]
    {
      calls := calls + [GetExamplesCall];
      if fault.Some? {
        return Err(InternalServerError("database.postgres.dbClient.GetExamples: failed to get examples: " + fault.value));
      }
      return Ok(rows);
    }
  }
}

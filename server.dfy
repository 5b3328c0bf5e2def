/** The request handlers of the server, over an abstract view of the two
    AWS services it talks to: whether the `movies` table exists, the items
    stored in it (in scan order), the parsed seed object in S3, and the log
    of every service call the handlers make. */
module Server {
  import opened Options
  import opened Strings
  import opened Records
  import opened Batching
  import opened Query

  const S3_BUCKET: string := "csu44000assignment220"
  const S3_OBJECT: string := "moviedata.json"
  const DB_TABLE: string := "movies"

  /** The service calls the handlers issue, in the order they issue them. */
  datatype Call =
    | ListTables
    | GetObject(bucket: string, key: string)
    | CreateTable(name: string, hashKey: string, rangeKey: string, readCapacity: nat, writeCapacity: nat)
    | WaitForTableExists(name: string)
    | BatchWriteItem(name: string, batch: seq<Item>)
    | Scan(name: string, year: string, prefix: string, rating: string)
    | DeleteTable(name: string)

  /** One `BatchWriteItem` call per batch, in batch order. */
  function WriteCalls(bs: seq<seq<Item>>): seq<Call> {
    seq(|bs|, k requires 0 <= k < |bs| => BatchWriteItem(DB_TABLE, bs[k]))
  }

  /** The `CreateTable` call of `create_dynamo_table`: hash key
      `titleLower`, range key `releaseYear`, 5 read and 5 write units. */
  function CreateCall(): Call {
    CreateTable(DB_TABLE, "titleLower", "releaseYear", 5, 5)
  }

  class MovieService {
    var tableExists: bool
    var table: seq<Item>
    var calls: seq<Call>
    const seed: seq<SourceMovie>

    /** An absent table holds nothing. */
    ghost predicate Valid()
      reads this
    {
      !tableExists ==> table == []
    }

    constructor (s3Object: seq<SourceMovie>)
      ensures Valid()
      ensures !tableExists && table == [] && calls == [] && seed == s3Object
    {
      tableExists := false;
      table := [];
      calls := [];
      seed := s3Object;
    }

    /** `checkDynamoTableExists`: lists the tables and reports whether
        `movies` is among them. */
    method CheckTableExists() returns (present: bool)
      modifies this`calls
      ensures present == tableExists
      ensures calls == old(calls) + [ListTables]
    {
      calls := calls + [ListTables];
      present := tableExists;
    }

    /** `get_data_from_S3`: fetches and parses the seed object. */
    method GetDataFromS3() returns (json: seq<SourceMovie>)
      modifies this`calls
      ensures json == seed
      ensures calls == old(calls) + [GetObject(S3_BUCKET, S3_OBJECT)]
    {
      calls := calls + [GetObject(S3_BUCKET, S3_OBJECT)];
      json := seed;
    }

    /** `create_dynamo_table` followed by the wait for the table to be
        ready: the table then exists and is empty. */
    method CreateDynamoTable()
      requires Valid() && !tableExists
      modifies this
      ensures Valid() && tableExists && table == []
      ensures calls == old(calls) + [CreateCall(), WaitForTableExists(DB_TABLE)]
    {
      calls := calls + [CreateCall()];
      tableExists := true;
      table := [];
      calls := calls + [WaitForTableExists(DB_TABLE)];
    }

    /** `insertIntoDynamoTable`: builds the batches, then writes them one
        call per batch, strictly in batch order, each call storing its
        batch. The write log is the batch sequence and the table gains the
        items of the document in document order. */
    method InsertIntoDynamoTable(json: seq<SourceMovie>)
      requires Valid() && tableExists
      modifies this`calls, this`table
      ensures Valid()
      ensures calls == old(calls) + WriteCalls(Chunks(MapAll(json)))
      ensures table == old(table) + MapAll(json)
    {
      var batches := BuildBatches(json);
      var i := 0;
      while i < |batches|
        invariant 0 <= i <= |batches|
        invariant calls == old(calls) + WriteCalls(batches[..i])
        invariant table == old(table) + Flatten(batches[..i])
      {
        calls := calls + [BatchWriteItem(DB_TABLE, batches[i])];
        table := table + batches[i];
        FlattenSnoc(batches[..i], batches[i]);
        assert batches[..i + 1] == batches[..i] + [batches[i]];
        assert WriteCalls(batches[..i + 1]) == WriteCalls(batches[..i]) + [BatchWriteItem(DB_TABLE, batches[i])];
        i := i + 1;
      }
      assert batches[..i] == batches;
    }

    /** `setup_table`. When the table exists it answers "Table already
        exists" after the existence check alone: no fetch, no create, no
        write. Otherwise it fetches the seed, creates the table, waits for
        it, loads every seed movie in 25-item batches and answers
        "Creation successful!"; the table then exists. */
    method SetupTable() returns (resp: Response)
      requires Valid()
      modifies this
      ensures Valid() && tableExists
      ensures old(tableExists) ==>
        && resp == GenerateResponse(false, "Table already exists", EmptyObject)
        && table == old(table)
        && calls == old(calls) + [ListTables]
      ensures !old(tableExists) ==>
        && resp == GenerateResponse(true, "Creation successful!", EmptyObject)
        && table == MapAll(seed)
        && calls == old(calls) + [ListTables, GetObject(S3_BUCKET, S3_OBJECT), CreateCall(), WaitForTableExists(DB_TABLE)]
                   + WriteCalls(Chunks(MapAll(seed)))
    {
      var present := CheckTableExists();
      if present {
        resp := GenerateResponse(false, "Table already exists", EmptyObject);
        return;
      }
      var json := GetDataFromS3();
      CreateDynamoTable();
      InsertIntoDynamoTable(json);
      resp := GenerateResponse(true, "Creation successful!", EmptyObject);
    }

    /** `delete_table`. When the table is absent it answers "Table does not
        exist." and issues no delete; otherwise it deletes the table, whose
        items go with it, and answers "Table Deleted!". Either way the table
        is then absent. */
    method DeleteTable() returns (resp: Response)
      requires Valid()
      modifies this
      ensures Valid() && !tableExists && table == []
      ensures !old(tableExists) ==>
        && resp == GenerateResponse(false, "Table does not exist.", EmptyObject)
        && calls == old(calls) + [ListTables]
      ensures old(tableExists) ==>
        && resp == GenerateResponse(true, "Table Deleted!", EmptyObject)
        && calls == old(calls) + [ListTables, Call.DeleteTable(DB_TABLE)]
    {
      var present := CheckTableExists();
      if !present {
        resp := GenerateResponse(false, "Table does not exist.", EmptyObject);
        return;
      }
      calls := calls + [Call.DeleteTable(DB_TABLE)];
      tableExists := false;
      table := [];
      resp := GenerateResponse(true, "Table Deleted!", EmptyObject);
    }

    /** `get_data`: one filtered scan of the table, whose items are then
        projected in scan order. The store decodes `:y` and `:r` as numbers;
        a scan of an absent table fails. */
    method GetData(args: ScanArgs) returns (data: Option<seq<MovieOut>>)
      requires Decode(args).Some?
      modifies this`calls
      ensures calls == old(calls) + [Scan(DB_TABLE, args.year, args.prefix, args.rating)]
      ensures !tableExists ==> data.None?
      ensures tableExists ==> data == Some(Select(table, Decode(args).value))
    {
      calls := calls + [Scan(DB_TABLE, args.year, args.prefix, args.rating)];
      if !tableExists {
        return None;
      }
      var raw := Filter(table, Decode(args).value);
      var movies := Project(raw);
      data := Some(movies);
    }

    /** `query_dynamo_table`. A year that is `NaN` answers "Invalid year"
        with no scan. Otherwise one scan runs with the year, the lower-cased
        prefix and the rating floor, and the answer lists the matching
        movies in scan order; on an absent table the scan's failure goes
        unhandled. */
    method QueryDynamoTable(p: Params) returns (reply: Reply)
      modifies this`calls
      ensures Translate(p).None? ==>
        && reply == Json(GenerateResponse(false, "Invalid year", EmptyObject))
        && calls == old(calls)
      ensures Translate(p).Some? ==>
        var c := Translate(p).value;
        && calls == old(calls) + [Scan(DB_TABLE, Encode(c).year, Encode(c).prefix, Encode(c).rating)]
        && (tableExists ==> reply == Json(GenerateResponse(true, "OK", Listed(Select(table, c)))))
        && (!tableExists ==> reply == Unhandled("ResourceNotFoundException"))
    {
      var args := ParseQueryParams(p);
      if args.None? {
        reply := Json(GenerateResponse(false, "Invalid year", EmptyObject));
        return;
      }
      DecodeEncode(Translate(p).value);
      var data := GetData(args.value);
      match data
      case None =>
        reply := Unhandled("ResourceNotFoundException");
      case Some(movies) =>
        reply := Json(GenerateResponse(true, "OK", Listed(movies)));
    }
  }

  /** Create, create again, delete, delete again, starting from no table:
      the second create and the second delete are refused, and the first
      create loads the whole seed. */
  method LifecycleScenario(s3Object: seq<SourceMovie>)
    returns (created: Response, again: Response, deleted: Response, gone: Response, loaded: seq<Item>)
    ensures created == GenerateResponse(true, "Creation successful!", EmptyObject)
    ensures again == GenerateResponse(false, "Table already exists", EmptyObject)
    ensures deleted == GenerateResponse(true, "Table Deleted!", EmptyObject)
    ensures gone == GenerateResponse(false, "Table does not exist.", EmptyObject)
    ensures loaded == MapAll(s3Object)
  {
    var service := new MovieService(s3Object);
    created := service.SetupTable();
    loaded := service.table;
    again := service.SetupTable();
    deleted := service.DeleteTable();
    gone := service.DeleteTable();
  }
}

/** The closed table of message types and their numeric ids. */
module Commands {
  import opened Failures

  datatype Command =
    | LockReq   // a lock request (path, mode)
    | GetMeta   // last-modified query (path)
    | GetFile   // download (path)
    | PutFile   // upload (path, data)
    | Unlock    // lock release (path, mode)
    | ResOk     // success
    | ResFail   // failure
    | MetaRes   // reply to GetMeta: an 8-byte timestamp
    | FileRes   // reply to GetFile: the file content

  /** Command.values(): the constants in declaration order. */
  const Values: seq<Command> :=
    [LockReq, GetMeta, GetFile, PutFile, Unlock, ResOk, ResFail, MetaRes, FileRes]

  /** getId(): the id each constant was declared with. */
  function Id(c: Command): int {
    match c
    case LockReq => 1
    case GetMeta => 2
    case GetFile => 3
    case PutFile => 4
    case Unlock => 5
    case ResOk => 10
    case ResFail => 11
    case MetaRes => 12
    case FileRes => 13
  }

  /** The five request commands; the other four are replies. */
  predicate IsRequest(c: Command) {
    c.LockReq? || c.GetMeta? || c.GetFile? || c.PutFile? || c.Unlock?
  }

  /** The ids that the table assigns. */
  predicate IsKnownId(id: int) {
    1 <= id <= 5 || 10 <= id <= 13
  }

  /** The loop of fromId over `cs`: the first constant whose id matches, or
      IllegalArgumentException when none does. */
  function FindFirst(cs: seq<Command>, id: int): (r: Result<Command>)
    ensures r.Ok? ==> r.value in cs && Id(r.value) == id
    ensures r.Err? ==> r.error == IllegalArgument && forall c | c in cs :: Id(c) != id
  {
    if cs == [] then Err(IllegalArgument)
    else if Id(cs[0]) == id then Ok(cs[0])
    else FindFirst(cs[1..], id)
  }

  /** fromId(id). */
  function FromId(id: int): (r: Result<Command>)
    ensures r.Ok? ==> Id(r.value) == id
  {
    FindFirst(Values, id)
  }

  lemma ValuesComplete(c: Command)
    ensures c in Values
  {
  }

  /** The ids are pairwise distinct, so getId is one-to-one. */
  lemma IdInjective(c: Command, d: Command)
    requires Id(c) == Id(d)
    ensures c == d
  {
  }

  /** Every constant has one of the nine ids, and every one of the nine ids
      belongs to a constant. */
  lemma IdsAreKnown(id: int)
    ensures IsKnownId(id) <==> exists c: Command :: Id(c) == id
  {
    if IsKnownId(id) {
      var c := if id == 1 then LockReq else if id == 2 then GetMeta
        else if id == 3 then GetFile else if id == 4 then PutFile
        else if id == 5 then Unlock else if id == 10 then ResOk
        else if id == 11 then ResFail else if id == 12 then MetaRes else FileRes;
      assert Id(c) == id;
    }
  }

  /** fromId(c.getId()) == c for every constant. */
  lemma FromIdOfId(c: Command)
    ensures FromId(Id(c)) == Ok(c)
  {
    ValuesComplete(c);
    var r := FromId(Id(c));
    if r.Ok? {
      IdInjective(r.value, c);
    }
  }

  /** fromId of an id outside the table throws IllegalArgumentException. */
  lemma FromIdUnknown(id: int)
    requires !IsKnownId(id)
    ensures FromId(id) == Err(IllegalArgument)
  {
  }

  /** fromId succeeds on exactly the nine ids. */
  lemma FromIdSucceedsIffKnown(id: int)
    ensures FromId(id).Ok? <==> IsKnownId(id)
  {
    if IsKnownId(id) {
      IdsAreKnown(id);
      var c: Command :| Id(c) == id;
      FromIdOfId(c);
    } else {
      FromIdUnknown(id);
    }
  }
}

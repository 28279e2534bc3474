/** The entry point: `get_args` resolves the camera records from the command
    line (layered defaults, then deduplication by `ip`) and `main` validates
    each record and launches one camera worker per record. Argument parsing
    itself and the worker processes are not modelled: argparse's output is
    the `Args` value and launching a worker appends its record to a list. */
module App {
  import opened Wrappers
  import opened Dicts
  import opened Dedup

  /** Values of the constants module, which is not part of this model. */
  const DEFAULT_CAMERA_PORT: string := "554"
  const DEFAULT_CHANNEL: string := "101"

  /** The fields `main` requires to be non-`None`, in the order it tests them. */
  const REQUIRED_FIELDS: seq<string> := ["port", "channel", "ip", "username", "password"]

  /** argparse's output: one string map per `--data` option and the four
      optional `--global-*` values. */
  datatype Args = Args(
    data: seq<map<string, string>>,
    globalUser: Option<string>,
    globalPassword: Option<string>,
    globalPort: Option<string>,
    globalChannel: Option<string>)

  /** A resolved camera record: a dict of strings whose values may be `None`. */
  type Record = Dict<string>

  /** The process-wide fallbacks: user and password stay `None` when not
      given; channel and port fall back to the default constants. */
  datatype Globals = Globals(user: Option<string>, password: Option<string>, channel: string, port: string)

  function ResolveGlobals(args: Args): (g: Globals)
  {
    Globals(
      args.globalUser,
      args.globalPassword,
      if args.globalChannel.Some? then args.globalChannel.value else DEFAULT_CHANNEL,
      if args.globalPort.Some? then args.globalPort.value else DEFAULT_CAMERA_PORT)
  }

  /** The item's own value under `k` when present, else the fallback. */
  function Field(item: map<string, string>, k: string, fallback: Option<string>): (v: Option<string>)
  {
    if k in item then Some(item[k]) else fallback
  }

  /** One element of the list comprehension in `get_args`; `item['ip']`
      raises `KeyError` when the item has no `ip`. */
  function ResolveItem(item: map<string, string>, g: Globals): (r: Result<Record>)
    ensures r.Ok? <==> "ip" in item
    ensures r.Err? ==> r.error == KeyError("ip")
    ensures r.Ok? ==> forall k :: k in REQUIRED_FIELDS ==> k in r.value
    ensures r.Ok? ==> Get(r.value, "port").Some? && Get(r.value, "channel").Some? && Get(r.value, "ip").Some?
  {
    if "ip" !in item then Err(KeyError("ip"))
    else
      Ok(map[
        "username" := Field(item, "user", g.user),
        "password" := Field(item, "password", g.password),
        "port" := Field(item, "port", Some(g.port)),
        "channel" := Field(item, "channel", Some(g.channel)),
        "ip" := Some(item["ip"])])
  }

  /** The whole list comprehension: one record per item, in order, or the
      `KeyError` of the first item without an `ip`. */
  function ResolveAll(data: seq<map<string, string>>, g: Globals): (r: Result<seq<Record>>)
    ensures r.Ok? <==> forall i :: 0 <= i < |data| ==> "ip" in data[i]
    ensures r.Err? ==> r.error == KeyError("ip")
    ensures r.Ok? ==> |r.value| == |data|
    ensures r.Ok? ==> forall i :: 0 <= i < |data| ==> ResolveItem(data[i], g) == Ok(r.value[i])
  {
    if data == [] then Ok([])
    else
      match ResolveItem(data[0], g)
      case Err(e) => Err(e)
      case Ok(first) =>
        match ResolveAll(data[1..], g)
        case Err(e) => Err(e)
        case Ok(rest) =>
          assert forall i :: 1 <= i < |data| ==> data[i] == data[1..][i - 1];
          Ok([first] + rest)
  }

  /** The records before deduplication. */
  function ResolvedRecords(args: Args): (r: Result<seq<Record>>)
  {
    ResolveAll(args.data, ResolveGlobals(args))
  }

  /** Layered defaults: every field of every resolved record is the item's
      own value when present, else the command-line global when given, else
      the default constant (`None` for user and password); `ip` always comes
      from the item and `port` and `channel` are never `None`. */
  lemma ResolvedFieldsLayered(args: Args, i: nat)
    requires ResolvedRecords(args).Ok? && i < |args.data|
    ensures var item, rec := args.data[i], ResolvedRecords(args).value[i];
      && Get(rec, "ip") == Some(item["ip"])
      && Get(rec, "username") == (if "user" in item then Some(item["user"]) else args.globalUser)
      && Get(rec, "password") == (if "password" in item then Some(item["password"]) else args.globalPassword)
      && Get(rec, "port") == Some(if "port" in item then item["port"]
                                  else if args.globalPort.Some? then args.globalPort.value
                                  else DEFAULT_CAMERA_PORT)
      && Get(rec, "channel") == Some(if "channel" in item then item["channel"]
                                     else if args.globalChannel.Some? then args.globalChannel.value
                                     else DEFAULT_CHANNEL)
  {
    var g := ResolveGlobals(args);
    assert ResolveItem(args.data[i], g) == Ok(ResolvedRecords(args).value[i]);
  }

  /** `get_args` after argparse: resolve every item, then deduplicate by `ip`. */
  method GetArgs(args: Args) returns (r: Result<seq<Record>>)
    ensures r.Ok? <==> forall i :: 0 <= i < |args.data| ==> "ip" in args.data[i]
    ensures r.Err? ==> r.error == KeyError("ip")
    ensures r.Ok? ==> r.value == UniqueByKey(ResolvedRecords(args).value, "ip")
    ensures r.Ok? ==> DistinctKeys(r.value, "ip")
    ensures r.Ok? ==> Keys(r.value, "ip") == Keys(ResolvedRecords(args).value, "ip")
  {
    var resolved := ResolvedRecords(args);
    if resolved.Err? {
      return Err(resolved.error);
    }
    var unique := ArrayUniqueByKey(resolved.value, "ip");
    UniqueHasDistinctKeys(resolved.value, "ip");
    UniqueKeepsEveryKey(resolved.value, "ip");
    r := Ok(unique);
  }

  /** The test of `main` on one record, evaluated left to right over `fields`:
      `item[k]` raises `KeyError` for a missing key, and a `None` value makes
      `main` raise `ValueError`. */
  function CheckFields(rec: Record, fields: seq<string>): (r: Option<Error>)
    ensures r == None <==> forall k :: k in fields ==> k in rec && rec[k].Some?
    ensures r != None ==> r.value == ValueError("One of the arguments contains None")
                          || exists k :: k in fields && k !in rec && r.value == KeyError(k)
  {
    if fields == [] then None
    else if fields[0] !in rec then Some(KeyError(fields[0]))
    else if rec[fields[0]] == None then Some(ValueError("One of the arguments contains None"))
    else CheckFields(rec, fields[1..])
  }

  /** The validity test of `main`, line by line in its order. */
  function CheckRecord(rec: Record): (r: Option<Error>)
  {
    CheckFields(rec, REQUIRED_FIELDS)
  }

  /** A resolved record is rejected exactly when no username or no password
      was given, neither on the item nor globally; port, channel and ip can
      never be `None` there, and the rejection is always a `ValueError`. */
  lemma ResolvedCheck(item: map<string, string>, g: Globals)
    requires "ip" in item
    ensures var rec := ResolveItem(item, g).value;
      && (CheckRecord(rec) == None <==> ("user" in item || g.user.Some?) && ("password" in item || g.password.Some?))
      && (CheckRecord(rec) != None ==> CheckRecord(rec) == Some(ValueError("One of the arguments contains None")))
  {
    var rec := ResolveItem(item, g).value;
    assert "username" in REQUIRED_FIELDS && "password" in REQUIRED_FIELDS;
  }

  /** The launch loop of `main`: each record is checked only when reached, so
      the records before the first bad one have already been launched when
      the exception is raised. */
  method LaunchAll(ipData: seq<Record>) returns (processes: seq<Record>, err: Option<Error>)
    ensures |processes| <= |ipData| && processes == ipData[..|processes|]
    ensures forall i :: 0 <= i < |processes| ==> CheckRecord(ipData[i]) == None
    ensures err == None <==> |processes| == |ipData|
    ensures err != None ==> err == CheckRecord(ipData[|processes|])
  {
    processes := [];
    for i := 0 to |ipData|
      invariant processes == ipData[..i]
      invariant forall j :: 0 <= j < i ==> CheckRecord(ipData[j]) == None
    {
      var failure := CheckRecord(ipData[i]);
      if failure != None {
        return processes, failure;
      }
      processes := processes + [ipData[i]];
    }
    err := None;
  }

  /** `main`: resolve the records, then launch them; a `KeyError` from
      `get_args` launches nothing. */
  method Run(args: Args) returns (processes: seq<Record>, err: Option<Error>)
    ensures ResolvedRecords(args).Err? ==> processes == [] && err == Some(KeyError("ip"))
    ensures ResolvedRecords(args).Ok? ==>
      var ipData := UniqueByKey(ResolvedRecords(args).value, "ip");
      && |processes| <= |ipData| && processes == ipData[..|processes|]
      && (forall i :: 0 <= i < |processes| ==> CheckRecord(ipData[i]) == None)
      && (err == None <==> |processes| == |ipData|)
      && (err != None ==> CheckRecord(ipData[|processes|]) != None)
      && (err != None ==> err == Some(ValueError("One of the arguments contains None")))
  {
    var ipData := GetArgs(args);
    if ipData.Err? {
      return [], Some(ipData.error);
    }
    processes, err := LaunchAll(ipData.value);
    if err != None {
      ResolvedRecordIsChecked(args, ipData.value, |processes|);
    }
  }

  /** Every record that survives deduplication came from the comprehension,
      so the launch loop can only reject it with a `ValueError`. */
  lemma ResolvedRecordIsChecked(args: Args, ipData: seq<Record>, k: nat)
    requires ResolvedRecords(args).Ok?
    requires ipData == UniqueByKey(ResolvedRecords(args).value, "ip")
    requires k < |ipData| && CheckRecord(ipData[k]) != None
    ensures CheckRecord(ipData[k]) == Some(ValueError("One of the arguments contains None"))
  {
    var recs := ResolvedRecords(args).value;
    assert ipData[k] in recs;
    var i :| 0 <= i < |recs| && recs[i] == ipData[k];
    ResolvedCheck(args.data[i], ResolveGlobals(args));
  }
}

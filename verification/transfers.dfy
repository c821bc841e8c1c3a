/** The public operations of a client: construction, `FetchAllFiles`,
    `Upload` and `Download`, built from the connection guard, the error log,
    the path rules and the batch loop. What the network, the local file
    system and the worker threads do is an input of each call. */
module Transfers {
  import opened Common
  import opened Text
  import opened ErrorLog
  import opened Settings
  import opened Connection
  import opened Paths
  import opened Batching

  /** The state of one client: its validated settings, its session and its
      error log. */
  datatype Client = Client(cfg: Config, session: Session, errors: seq<string>)

  /** The end of a call on a client: the client afterwards and the returned
      value or raised fault; or `Pending` when the connect loop was still
      retrying after the last supplied attempt. */
  datatype Call<T> = Done(client: Client, result: Result<T>) | Pending(client: Client)

  /** The end of constructing a client. */
  datatype Opened = Opened(client: Client) | Refused(fault: Fault) | StillConnecting

  /** The end of `Upload` or `Download`: the client afterwards, the indices
      whose workers were started (in start order) and the fault raised; or
      `Stuck` when the call would keep looping. */
  datatype Transfer =
    | Transfer(client: Client, started: seq<nat>, fault: Option<Fault>)
    | Stuck(client: Client)

  const FetchFailure: string := "Could not fetch all files from "
  const UploadFailure: string := "Could not upload all files: "
  const DownloadFailure: string := "Could not download all files: "

  // ---------------------------------------------------------------------------
  // Construction and the connection guard

  /** `_CheckConnected` on a client. */
  function Guard(c: Client, input: GuardInput): (r: Call<()>)
    ensures r.client.cfg == c.cfg && r.client.errors == c.errors
    ensures r.Done? && r.result.Ok? ==> r.client.session.isConnected
    ensures var g := CheckConnected(c.session, c.cfg, input);
      && r.client.session == g.session
      && (r.Pending? <==> g.Undecided?)
      && (g.Guarded? && g.fault.Some? ==> r.Done? && r.result == Err(g.fault.value))
      && (g.Guarded? && g.fault.None? ==> r.Done? && r.result.Ok?)
  {
    match CheckConnected(c.session, c.cfg, input)
    case Guarded(s, _, _, fault) =>
      Done(c.(session := s), if fault.None? then Ok(()) else Err(fault.value))
    case Undecided(s, _) => Pending(c.(session := s))
  }

  /** The constructor: `_SetParameters`, then `_CheckConnected` on a fresh
      session with an empty log. */
  function Construct(params: map<string, Value>, input: GuardInput): (r: Opened)
    ensures r.Opened? ==> r.client.session.isConnected && r.client.errors == []
  {
    match SetParameters(params)
    case Err(f) => Refused(f)
    case Ok(cfg) =>
      match Guard(Client(cfg, Initial(cfg), []), input)
      case Done(c, Ok(_)) => Opened(c)
      case Done(_, Err(f)) => Refused(f)
      case Pending(_) => StillConnecting
  }

  /** Invalid settings are refused with the initialisation prefix before any
      connection attempt: the result does not depend on the network at all. */
  lemma ConstructChecksSettingsFirst(params: map<string, Value>, input: GuardInput, other: GuardInput)
    requires !Acceptable(params)
    ensures Construct(params, input).Refused?
    ensures Construct(params, input) == Construct(params, other)
    ensures Construct(params, input).fault.Raised?
    ensures var m := Construct(params, input).fault.message;
      |m| >= |InitPrefix| && m[..|InitPrefix|] == InitPrefix
  {
    SetParametersAccepts(params);
  }

  /** Valid settings give a client with those settings, whose fate is that of
      the first connection check on a fresh session with an empty log. */
  lemma ConstructWithValidSettings(params: map<string, Value>, input: GuardInput)
    requires Acceptable(params)
    ensures SetParameters(params).Ok?
    ensures var cfg := SetParameters(params).value;
      var g := Guard(Client(cfg, Initial(cfg), []), input);
      && (Construct(params, input).Opened? <==> g.Done? && g.result.Ok?)
      && (Construct(params, input).StillConnecting? <==> g.Pending?)
      && (Construct(params, input).Opened? ==> Construct(params, input).client.cfg == cfg)
  {
    SetParametersAccepts(params);
  }

  // ---------------------------------------------------------------------------
  // FetchAllFiles

  /** The listing request of `FetchAllFiles` as the call sees it: the GET or
      `json.loads` raised, or the parsed reply together with its "value"
      entry (`None` when the key is absent). */
  datatype Listing =
    | ListingUnreachable
    | Listing(reply: Reply, children: Option<seq<Child>>)

  /** `FetchAllFiles(path)`: guard, strip the path, request the listing,
      check the reply, drain the log with no prefix, then split
      `response["value"]` into files and folders. */
  function FetchAllFiles(c: Client, input: GuardInput, path: string, listing: Listing): (r: Call<(NameMap, NameMap)>)
    ensures r.client.cfg == c.cfg
    ensures r.Done? && r.result.Ok? ==>
      && listing.Listing? && listing.children.Some?
      && r.result.value == SplitListing(listing.children.value) && r.client.errors == []
    ensures c.errors == [] ==> r.client.errors == []
    ensures listing.ListingUnreachable? && Guard(c, input).Done? && Guard(c, input).result.Ok? ==>
      r == Done(Guard(c, input).client, Err(Transport))
    ensures Guard(c, input).Done? && Guard(c, input).result.Err? ==>
      r == Done(Guard(c, input).client, Err(Guard(c, input).result.fault))
    ensures Guard(c, input).Pending? ==> r == Pending(Guard(c, input).client)
  {
    match Guard(c, input)
    case Pending(c1) => Pending(c1)
    case Done(c1, Err(f)) => Done(c1, Err(f))
    case Done(c1, Ok(_)) => ReadListing(c1, StripSlashes(path), listing)
  }

  /** `FetchAllFiles` after the guard, for the stripped path `p`. */
  function ReadListing(c: Client, p: string, listing: Listing): (r: Call<(NameMap, NameMap)>)
    ensures r.Done? && r.client.cfg == c.cfg
    ensures r.result.Ok? ==>
      && listing.Listing? && listing.children.Some?
      && r.result.value == SplitListing(listing.children.value) && r.client.errors == []
    ensures c.errors == [] ==> r.client.errors == []
    ensures listing.ListingUnreachable? ==> r == Done(c, Err(Transport))
  {
    match listing
    case ListingUnreachable => Done(c, Err(Transport))
    case Listing(reply, children) =>
      var chk := CheckError(c.errors, FetchFailure + p, reply);
      if chk.flag.Err? then Done(c.(errors := chk.log), Err(chk.flag.fault))
      else
        var d := FetchErrors(chk.log, "");
        var c2 := c.(errors := d.log);
        if d.raised.Some? then Done(c2, Err(Raised(d.raised.value)))
        else if children.None? then Done(c2, Err(KeyMissing("value")))
        else Done(c2, Ok(SplitListing(children.value)))
  }

  /** Once the guard passes on a client with an empty log: an unreachable
      listing raises at once and leaves the log empty, an error reply raises
      a message naming the stripped path, an unreadable error code raises,
      and a clean reply yields the split listing or a missing "value" key. */
  lemma FetchAllFilesOutcome(c: Client, input: GuardInput, path: string, reply: Reply,
                             children: Option<seq<Child>>)
    requires c.errors == []
    requires Guard(c, input).Done? && Guard(c, input).result.Ok?
    ensures FetchAllFiles(c, input, path, ListingUnreachable) == Done(Guard(c, input).client, Err(Transport))
    ensures var r := FetchAllFiles(c, input, path, Listing(reply, children));
      var text := FetchFailure + StripSlashes(path);
      && r.Done?
      && (r.result.Ok? <==> !SignalsError(reply) && children.Some?)
      && (!SignalsError(reply) && children.None? ==> r.result == Err(KeyMissing("value")))
      && (SignalsError(reply) && r.result.Err? && r.result.fault.Raised? ==>
            |r.result.fault.message| >= |text| && r.result.fault.message[..|text|] == text)
      && (SignalsError(reply) ==> r.result.Err?)
  {
    ReadListingOutcome(Guard(c, input).client, StripSlashes(path), reply, children);
  }

  /** `FetchAllFilesOutcome` for a reply, after the guard. */
  lemma ReadListingOutcome(c: Client, p: string, reply: Reply, children: Option<seq<Child>>)
    requires c.errors == []
    ensures var r := ReadListing(c, p, Listing(reply, children));
      var text := FetchFailure + p;
      && (r.result.Ok? <==> !SignalsError(reply) && children.Some?)
      && (!SignalsError(reply) && children.None? ==> r.result == Err(KeyMissing("value")))
      && (SignalsError(reply) && r.result.Err? && r.result.fault.Raised? ==>
            |r.result.fault.message| >= |text| && r.result.fault.message[..|text|] == text)
      && (SignalsError(reply) ==> r.result.Err?)
  {
    var text := FetchFailure + p;
    CheckErrorFlagsFailures(c.errors, text, reply);
    var chk := CheckError(c.errors, text, reply);
    if chk.flag.Ok? && chk.flag.value {
      assert chk.log == [chk.log[0]];
      assert Join(chk.log, Separator) == chk.log[0];
      assert FetchErrors(chk.log, "").raised == Some(chk.log[0]);
    }
  }

  // ---------------------------------------------------------------------------
  // Workers

  /** What happened to one file of an `Upload`: it was not a local file, the
      PUT returned this parsed reply, or the PUT or its parsing raised inside
      the worker thread. */
  datatype UploadItem = FileMissing | Sent(reply: Reply) | SendRaised

  /** What happened to one file of a `Download`: the GET returned a response
      with this `ok` flag and the local write succeeded or not, or the GET
      raised inside the worker thread. */
  datatype DownloadItem = Fetched(ok: bool, written: bool) | FetchRaised

  /** The message `UploadIntern` records for a file, if any. An exception in
      the thread, including one while reading an error code, records nothing. */
  function UploadEntry(filename: string, item: UploadItem): (e: Option<string>)
    ensures item.SendRaised? ==> e.None?
    ensures item.FileMissing? ==> e == Some("Could not upload " + filename + ": File does not exist")
    ensures e.Some? ==>
      var t := "Could not upload " + filename;
      |e.value| >= |t| && e.value[..|t|] == t
  {
    match item
    case FileMissing => Recorded(Classify("Could not upload " + filename + ": File does not exist", Neither))
    case Sent(reply) => Recorded(Classify("Could not upload " + filename, reply))
    case SendRaised => None
  }

  /** The message `DownloadIntern` records for a file, if any: a failed
      response is recorded and nothing is written; otherwise a failed local
      write is recorded. */
  function DownloadEntry(filename: string, pathLocal: string, item: DownloadItem): (e: Option<string>)
    ensures item.FetchRaised? ==> e.None?
    ensures item == Fetched(true, true) ==> e.None?
    ensures item.Fetched? && !item.ok ==> e == Some("Could not download " + filename)
    ensures item == Fetched(true, false) ==> e == Some("Could not write " + pathLocal + " to drive")
  {
    match item
    case Fetched(ok, written) =>
      var v := Classify("Could not download " + filename, HttpResponse(ok));
      if v.Flagged? then Recorded(v)
      else if written then None
      else Recorded(Classify("Could not write " + pathLocal + " to drive", Neither))
    case FetchRaised => None
  }

  /** An upload worker records a message exactly when the file is missing or
      the reply signals an error that can be read, and the message names the
      file. */
  lemma UploadEntryMeaning(filename: string, item: UploadItem)
    ensures UploadEntry(filename, item).Some? <==>
      item.FileMissing? ||
      (item.Sent? && SignalsError(item.reply) && !(item.reply.JsonDict? && item.reply.errorCode.None?))
    ensures item.FileMissing? ==>
      UploadEntry(filename, item) == Some("Could not upload " + filename + ": File does not exist")
    ensures UploadEntry(filename, item).Some? ==>
      var m := UploadEntry(filename, item).value;
      var t := "Could not upload " + filename;
      |m| >= |t| && m[..|t|] == t
  {
    if item.Sent? {
      CheckErrorFlagsFailures([], "Could not upload " + filename, item.reply);
      assert CheckError([], "Could not upload " + filename, item.reply).flag.Ok? ==>
        (CheckError([], "Could not upload " + filename, item.reply).flag.value <==>
         Classify("Could not upload " + filename, item.reply).Flagged?);
    }
  }

  /** A download worker records a message exactly when the response is not
      ok or the local write fails, and which message tells the two apart. */
  lemma DownloadEntryMeaning(filename: string, pathLocal: string, item: DownloadItem)
    ensures DownloadEntry(filename, pathLocal, item).Some? <==>
      item.Fetched? && (!item.ok || !item.written)
    ensures item.Fetched? && !item.ok ==>
      DownloadEntry(filename, pathLocal, item) == Some("Could not download " + filename)
    ensures item.Fetched? && item.ok && !item.written ==>
      DownloadEntry(filename, pathLocal, item) == Some("Could not write " + pathLocal + " to drive")
  {
  }

  // ---------------------------------------------------------------------------
  // The loop without threads

  /** The batch loop when `max_threads <= 0` and there are items: no worker
      is ever started, so the first drain raises what the log already holds,
      and an empty log keeps the loop going for ever. */
  function Spin(c: Client, prefix: string): (r: Transfer)
    ensures r.Transfer? <==> |c.errors| > 0
    ensures r.Transfer? ==> r.started == [] && r.client.errors == []
    ensures r.Transfer? ==> r.fault == Some(Raised(prefix + Join(c.errors, Separator)))
    ensures r.Stuck? ==> r.client == c
  {
    var d := FetchErrors(c.errors, prefix);
    if d.raised.Some? then Transfer(c.(errors := d.log), [], Some(Raised(d.raised.value)))
    else Stuck(c)
  }

  /** The `Transfer` a run of the batch loop leaves. */
  function Finish(c: Client, run: Run): (r: Transfer)
    ensures r.Transfer? && r.client == c.(errors := run.log) && r.started == run.started
    ensures r.fault.Some? <==> run.raised.Some?
  {
    Transfer(c.(errors := run.log), run.started, if run.raised.Some? then Some(Raised(run.raised.value)) else None)
  }

  // ---------------------------------------------------------------------------
  // Upload

  /** The inputs of one `Upload` call: the guard's inputs, what happens to
      each file, and the order in which each batch's workers finish. */
  datatype UploadWorld = UploadWorld(guard: GuardInput, items: seq<UploadItem>, orders: seq<seq<nat>>)

  /** One outcome per file, and per batch of the loop a completion order
      that is a permutation of the workers the batch starts. */
  ghost predicate UploadFits(c: Client, filenames: seq<string>, w: UploadWorld)
  {
    |w.items| == |filenames| &&
    (c.cfg.maxThreads >= 1 ==>
      ValidOrders(Schedule(|filenames|, c.cfg.maxThreads), w.orders, Everything(|filenames|)))
  }

  /** The worker messages of an upload: the file name with backslashes
      turned into slashes goes into the message. */
  function UploadEntries(filenames: seq<string>, items: seq<UploadItem>): (r: seq<Option<string>>)
    requires |items| == |filenames|
    ensures |r| == |filenames|
    ensures forall i :: 0 <= i < |r| ==> r[i] == UploadEntry(Replace(filenames[i], Backslash, Slash), items[i])
  {
    seq(|filenames|, i requires 0 <= i < |filenames| => UploadEntry(Replace(filenames[i], Backslash, Slash), items[i]))
  }

  /** `Upload(filenames, path_onedrive)`: guard, normalise the folder (an
      empty path raises), then the batch loop over all files. The worker of
      index `i` puts its file at `UploadTarget(path, filenames[i])`; the
      result records which indices were started, not the targets. */
  function Upload(c: Client, filenames: seq<string>, path: string, w: UploadWorld): (r: Transfer)
    requires UploadFits(c, filenames, w)
    ensures r.client.cfg == c.cfg
    ensures r.Transfer? && path == "" ==> r.started == []
    ensures r.Transfer? ==> forall x :: x in r.started ==> x < |filenames|
    ensures c.errors == [] ==> r.client.errors == []
    ensures r.Stuck? ==> Guard(c, w.guard).Pending? || (c.cfg.maxThreads <= 0 && |filenames| > 0)
    ensures Guard(c, w.guard).Done? && Guard(c, w.guard).result.Err? ==>
      r == Transfer(Guard(c, w.guard).client, [], Some(Guard(c, w.guard).result.fault))
  {
    match Guard(c, w.guard)
    case Pending(c1) => Stuck(c1)
    case Done(c1, Err(f)) => Transfer(c1, [], Some(f))
    case Done(c1, Ok(_)) =>
      match UploadFolder(path)
      case Err(f) => Transfer(c1, [], Some(f))
      case Ok(_) =>
        var n := |filenames|;
        if n == 0 then Transfer(c1, [], None)
        else if c1.cfg.maxThreads <= 0 then Spin(c1, UploadFailure)
        else
          Finish(c1, RunBatches(Schedule(n, c1.cfg.maxThreads), w.orders, Everything(n),
                                UploadEntries(filenames, w.items), c1.errors, UploadFailure))
  }

  /** The guard passed and the folder is valid: the state in which the
      upload loop runs. */
  predicate UploadReady(c: Client, path: string, w: UploadWorld)
  {
    Guard(c, w.guard).Done? && Guard(c, w.guard).result.Ok? && path != ""
  }

  /** Without a connection and with every connect attempt failing, an upload
      raises "Could not connect to OneDrive" before any worker starts. */
  lemma UploadGivesUpWithoutConnection(c: Client, filenames: seq<string>, path: string, w: UploadWorld)
    requires UploadFits(c, filenames, w)
    requires !c.session.isConnected && c.cfg.retryCount >= 1
    requires |w.guard.attempts| >= c.cfg.retryCount - 1
    requires forall j :: 0 <= j < |w.guard.attempts| ==> Unsuccessful(w.guard.attempts[j])
    ensures var r := Upload(c, filenames, path, w);
      r.Transfer? && r.started == [] && r.fault == Some(Raised(ConnectFailure))
  {
    AllFailingCheckRaises(c.session, c.cfg, w.guard);
  }

  /** With the guard passed, an empty remote path raises before any worker
      starts. */
  lemma UploadNeedsFolder(c: Client, filenames: seq<string>, w: UploadWorld)
    requires UploadFits(c, filenames, w)
    requires Guard(c, w.guard).Done? && Guard(c, w.guard).result.Ok?
    ensures Upload(c, filenames, "", w) == Transfer(Guard(c, w.guard).client, [], Some(PathEmpty))
  {
  }

  /** An upload in which no worker records a message raises nothing and
      starts every file exactly once, from the last to the first. */
  lemma UploadStartsEveryFile(c: Client, filenames: seq<string>, path: string, w: UploadWorld)
    requires UploadFits(c, filenames, w) && UploadReady(c, path, w)
    requires c.errors == [] && c.cfg.maxThreads >= 1
    requires forall i :: 0 <= i < |filenames| ==> UploadEntries(filenames, w.items)[i].None?
    ensures Upload(c, filenames, path, w) ==
      Transfer(Guard(c, w.guard).client, Descending(|filenames|, |filenames|), None)
  {
    var n := |filenames|;
    if n > 0 {
      CleanRunStartsEverything(n, c.cfg.maxThreads, w.orders, UploadEntries(filenames, w.items), UploadFailure);
    }
  }

  /** A single file that does not exist: its worker is started, records
      the "File does not exist" message, and the upload raises it after the
      upload failure prefix, whatever the thread count. */
  lemma OneMissingFileRaises(c: Client, name: string, path: string, w: UploadWorld)
    requires UploadFits(c, [name], w) && UploadReady(c, path, w)
    requires c.errors == [] && c.cfg.maxThreads >= 1
    requires w.items == [FileMissing]
    ensures var m := "Could not upload " + Replace(name, Backslash, Slash) + ": File does not exist";
      Upload(c, [name], path, w) == Transfer(Guard(c, w.guard).client, [0], Some(Raised(UploadFailure + m)))
  {
    var m := "Could not upload " + Replace(name, Backslash, Slash) + ": File does not exist";
    var s := Schedule(1, c.cfg.maxThreads);
    assert Descending(1, 1) == [0];
    assert s == [[0]];
    var entry := UploadEntries([name], w.items);
    assert entry == [Some(m)];
    assert Launched([0], Everything(1)) == [0];
    var order := w.orders[0];
    assert multiset(order) == multiset{0};
    assert |order| == 1 && order[0] in multiset(order);
    assert order == [0];
    assert Records(order, entry) == [m];
    RunFailsAtFirst(s, w.orders, Everything(1), entry, UploadFailure);
    assert s[..1] == s;
    assert AllLaunched(s, Everything(1)) == [0];
    assert Join([m], Separator) == m;
  }

  /** Fail-fast upload: when batch `k` is the first whose workers record a
      message, the call raises with "Could not upload all files: " followed
      by that batch's messages joined in completion order; exactly the files
      of batches `0..k` were started; no file of a later batch was; and the
      log is left empty. */
  lemma UploadFailsFast(c: Client, filenames: seq<string>, path: string, w: UploadWorld, k: nat)
    requires UploadFits(c, filenames, w) && UploadReady(c, path, w)
    requires c.errors == [] && c.cfg.maxThreads >= 1
    requires k < |Schedule(|filenames|, c.cfg.maxThreads)|
    requires BatchErrors(Schedule(|filenames|, c.cfg.maxThreads)[k], Everything(|filenames|),
                         UploadEntries(filenames, w.items)) != []
    requires forall j :: 0 <= j < k ==>
      BatchErrors(Schedule(|filenames|, c.cfg.maxThreads)[j], Everything(|filenames|),
                  UploadEntries(filenames, w.items)) == []
    ensures var s := Schedule(|filenames|, c.cfg.maxThreads);
      var r := Upload(c, filenames, path, w);
      && r.Transfer?
      && r.client.errors == []
      && r.fault == Some(Raised(UploadFailure + Join(Records(w.orders[k], UploadEntries(filenames, w.items)), Separator)))
      && r.started == AllLaunched(s[..k + 1], Everything(|filenames|))
      && (forall j, y :: k < j < |s| && y in s[j] ==> y !in r.started)
  {
    var n := |filenames|;
    var s := Schedule(n, c.cfg.maxThreads);
    RunFailsFastAt(s, w.orders, Everything(n), UploadEntries(filenames, w.items), UploadFailure, k);
    forall j, y | k < j < |s| && y in s[j] ensures y !in AllLaunched(s[..k + 1], Everything(n)) {
      LaterIndicesNeverStarted(n, c.cfg.maxThreads, Everything(n), k, j, y);
    }
  }

  // ---------------------------------------------------------------------------
  // Download

  /** The inputs of one `Download` call: the guard's inputs for `Download`
      and for its `FetchAllFiles`, the listing request's outcome,
      what happens to each listed file (in key order), and the completion
      order of each batch. */
  datatype DownloadWorld = DownloadWorld(
    guard: GuardInput,
    fetchGuard: GuardInput,
    listing: Listing,
    items: seq<DownloadItem>,
    orders: seq<seq<nat>>)

  /** The file names of the listing, in dict order. */
  function ListedFiles(w: DownloadWorld): seq<string>
  {
    if w.listing.Listing? && w.listing.children.Some? then Keys(SplitListing(w.listing.children.value).0) else []
  }

  /** One outcome per listed file, and per batch of the loop a completion
      order that is a permutation of the workers the filter lets it start. */
  ghost predicate DownloadFits(c: Client, w: DownloadWorld, specific: string)
  {
    var keys := ListedFiles(w);
    |w.items| == |keys| &&
    (c.cfg.maxThreads >= 1 ==>
      ValidOrders(Schedule(|keys|, c.cfg.maxThreads), w.orders, Filter(keys, specific)))
  }

  /** The `specific_file` filter over the keys. */
  function Filter(keys: seq<string>, specific: string): (r: seq<bool>)
    ensures |r| == |keys|
    ensures forall i :: 0 <= i < |keys| ==> (r[i] <==> Selected(specific, keys[i]))
  {
    seq(|keys|, i requires 0 <= i < |keys| => Selected(specific, keys[i]))
  }

  /** With no specific file the filter selects every key. */
  lemma FilterNothing(keys: seq<string>)
    ensures Filter(keys, "") == Everything(|keys|)
  {
    var a := Filter(keys, "");
    var b := Everything(|keys|);
    assert forall i :: 0 <= i < |keys| ==> a[i] == b[i];
  }

  /** The worker messages of a download. */
  function DownloadEntries(keys: seq<string>, pathLocal: string, items: seq<DownloadItem>): (r: seq<Option<string>>)
    requires |items| == |keys|
    ensures |r| == |keys|
    ensures forall i :: 0 <= i < |r| ==> r[i] == DownloadEntry(keys[i], pathLocal, items[i])
  {
    seq(|keys|, i requires 0 <= i < |keys| => DownloadEntry(keys[i], pathLocal, items[i]))
  }

  /** The batch loop of `Download` over the file keys of the listing,
      starting a worker only for the keys the filter selects. */
  function DownloadLoop(c: Client, keys: seq<string>, pathLocal: string, specific: string,
                        items: seq<DownloadItem>, orders: seq<seq<nat>>): (r: Transfer)
    requires |items| == |keys|
    requires c.cfg.maxThreads >= 1 ==> ValidOrders(Schedule(|keys|, c.cfg.maxThreads), orders, Filter(keys, specific))
    ensures r.client.cfg == c.cfg
    ensures r.Transfer? ==> forall x :: x in r.started ==> x < |keys| && Selected(specific, keys[x])
    ensures c.errors == [] ==> r.client.errors == []
    ensures r.Stuck? <==> c.cfg.maxThreads <= 0 && |keys| > 0 && c.errors == []
  {
    var n := |keys|;
    if n == 0 then Transfer(c, [], None)
    else if c.cfg.maxThreads <= 0 then Spin(c, DownloadFailure)
    else
      Finish(c, RunBatches(Schedule(n, c.cfg.maxThreads), orders, Filter(keys, specific),
                           DownloadEntries(keys, pathLocal, items), c.errors, DownloadFailure))
  }

  /** `Download(path_onedrive, path_local, specific_file)`: guard, strip the
      path, `FetchAllFiles` on it, then the batch loop over its file keys. */
  function Download(c: Client, path: string, pathLocal: string, specific: string, w: DownloadWorld): (r: Transfer)
    requires DownloadFits(c, w, specific)
    ensures r.client.cfg == c.cfg
    ensures r.Transfer? ==> forall x :: x in r.started ==>
      x < |ListedFiles(w)| && Selected(specific, ListedFiles(w)[x])
    ensures c.errors == [] ==> r.client.errors == []
    ensures Guard(c, w.guard).Done? && Guard(c, w.guard).result.Err? ==>
      r == Transfer(Guard(c, w.guard).client, [], Some(Guard(c, w.guard).result.fault))
    ensures Guard(c, w.guard).Pending? ==> r.Stuck?
  {
    match Guard(c, w.guard)
    case Pending(c1) => Stuck(c1)
    case Done(c1, Err(f)) => Transfer(c1, [], Some(f))
    case Done(c1, Ok(_)) =>
      match FetchAllFiles(c1, w.fetchGuard, StripSlashes(path), w.listing)
      case Pending(c2) => Stuck(c2)
      case Done(c2, Err(f)) => Transfer(c2, [], Some(f))
      case Done(c2, Ok(split)) =>
        DownloadLoop(c2, ListedFiles(w), pathLocal, specific, w.items, w.orders)
  }

  /** With a specific file named and distinct keys, every started worker
      downloads that one file: the filter never starts a worker for another
      name, and all started indices are the same index. */
  lemma DownloadSpecificOnly(c: Client, path: string, pathLocal: string, specific: string, w: DownloadWorld)
    requires DownloadFits(c, w, specific) && specific != ""
    ensures var r := Download(c, path, pathLocal, specific, w);
      r.Transfer? ==>
        (forall x :: x in r.started ==> ListedFiles(w)[x] == specific) &&
        (forall x, y :: x in r.started && y in r.started ==> x == y)
  {
    var r := Download(c, path, pathLocal, specific, w);
    if r.Transfer? && w.listing.Listing? && w.listing.children.Some? {
      var d := SplitListing(w.listing.children.value).0;
      assert UniqueKeys(d);
      forall x, y | x in r.started && y in r.started ensures x == y {
        assert Keys(d)[x] == d[x].0 && Keys(d)[y] == d[y].0;
      }
    }
  }

  /** The connection check passes and the listing of the remote folder
      succeeds. */
  predicate DownloadReady(c: Client, path: string, w: DownloadWorld)
  {
    && Guard(c, w.guard).Done? && Guard(c, w.guard).result.Ok?
    && var f := FetchAllFiles(Guard(c, w.guard).client, w.fetchGuard, StripSlashes(path), w.listing);
      f.Done? && f.result.Ok?
  }

  /** The first batch whose selected workers record a message ends the
      download: "Could not download all files: " followed by that batch's
      messages in completion order, joined by ". "; exactly the selected
      workers of the batches up to it were started, none of a later batch,
      and the log is left empty. */
  lemma DownloadFailsFast(c: Client, path: string, pathLocal: string, specific: string, w: DownloadWorld, k: nat)
    requires DownloadFits(c, w, specific) && DownloadReady(c, path, w)
    requires c.errors == [] && c.cfg.maxThreads >= 1
    requires k < |Schedule(|ListedFiles(w)|, c.cfg.maxThreads)|
    requires BatchErrors(Schedule(|ListedFiles(w)|, c.cfg.maxThreads)[k], Filter(ListedFiles(w), specific),
                         DownloadEntries(ListedFiles(w), pathLocal, w.items)) != []
    requires forall j :: 0 <= j < k ==>
      BatchErrors(Schedule(|ListedFiles(w)|, c.cfg.maxThreads)[j], Filter(ListedFiles(w), specific),
                  DownloadEntries(ListedFiles(w), pathLocal, w.items)) == []
    ensures var keys := ListedFiles(w);
      var s := Schedule(|keys|, c.cfg.maxThreads);
      var r := Download(c, path, pathLocal, specific, w);
      && r.Transfer?
      && r.client.errors == []
      && r.fault == Some(Raised(DownloadFailure +
           Join(Records(w.orders[k], DownloadEntries(keys, pathLocal, w.items)), Separator)))
      && r.started == AllLaunched(s[..k + 1], Filter(keys, specific))
      && (forall j, y :: k < j < |s| && y in s[j] ==> y !in r.started)
  {
    var keys := ListedFiles(w);
    var n := |keys|;
    var s := Schedule(n, c.cfg.maxThreads);
    var launch := Filter(keys, specific);
    var c1 := Guard(c, w.guard).client;
    var c2 := FetchAllFiles(c1, w.fetchGuard, StripSlashes(path), w.listing).client;
    assert n > 0;
    DownloadLoopRuns(c2, keys, pathLocal, specific, w.items, w.orders);
    RunFailsFastAt(s, w.orders, launch, DownloadEntries(keys, pathLocal, w.items), DownloadFailure, k);
    forall j, y | k < j < |s| && y in s[j] ensures y !in AllLaunched(s[..k + 1], launch) {
      LaterIndicesNeverStarted(n, c.cfg.maxThreads, launch, k, j, y);
    }
  }

  /** Without a connection and with every connect attempt failing, a download
      raises "Could not connect to OneDrive" before listing or starting
      anything. */
  lemma DownloadGivesUpWithoutConnection(c: Client, path: string, pathLocal: string, specific: string, w: DownloadWorld)
    requires DownloadFits(c, w, specific)
    requires !c.session.isConnected && c.cfg.retryCount >= 1
    requires |w.guard.attempts| >= c.cfg.retryCount - 1
    requires forall j :: 0 <= j < |w.guard.attempts| ==> Unsuccessful(w.guard.attempts[j])
    ensures var r := Download(c, path, pathLocal, specific, w);
      r.Transfer? && r.started == [] && r.fault == Some(Raised(ConnectFailure))
  {
    AllFailingCheckRaises(c.session, c.cfg, w.guard);
  }

  /** A download with no specific file and no worker message starts a worker
      for every listed file, from the last key to the first. */
  lemma DownloadStartsEveryFile(c: Client, path: string, pathLocal: string, w: DownloadWorld)
    requires DownloadFits(c, w, "") && c.errors == [] && c.cfg.maxThreads >= 1
    requires DownloadReady(c, path, w)
    requires forall i :: 0 <= i < |ListedFiles(w)| ==>
      DownloadEntries(ListedFiles(w), pathLocal, w.items)[i].None?
    ensures var r := Download(c, path, pathLocal, "", w);
      r.Transfer? && r.fault.None? && r.started == Descending(|ListedFiles(w)|, |ListedFiles(w)|)
  {
    var c1 := Guard(c, w.guard).client;
    var c2 := FetchAllFiles(c1, w.fetchGuard, StripSlashes(path), w.listing).client;
    DownloadLoopStartsEverything(c2, ListedFiles(w), pathLocal, w.items, w.orders);
  }

  /** The loop half of `DownloadStartsEveryFile`. */
  lemma DownloadLoopStartsEverything(c: Client, keys: seq<string>, pathLocal: string,
                                     items: seq<DownloadItem>, orders: seq<seq<nat>>)
    requires c.errors == [] && c.cfg.maxThreads >= 1 && |items| == |keys|
    requires ValidOrders(Schedule(|keys|, c.cfg.maxThreads), orders, Filter(keys, ""))
    requires forall i :: 0 <= i < |keys| ==> DownloadEntries(keys, pathLocal, items)[i].None?
    ensures DownloadLoop(c, keys, pathLocal, "", items, orders) == Transfer(c, Descending(|keys|, |keys|), None)
  {
    if |keys| > 0 {
      DownloadLoopRuns(c, keys, pathLocal, "", items, orders);
      CleanDownloadRun(c.cfg.maxThreads, keys, DownloadEntries(keys, pathLocal, items), orders);
    }
  }

  /** With threads and keys, the download loop is the batch loop over the
      schedule of the keys. */
  lemma DownloadLoopRuns(c: Client, keys: seq<string>, pathLocal: string, specific: string,
                         items: seq<DownloadItem>, orders: seq<seq<nat>>)
    requires c.cfg.maxThreads >= 1 && |keys| > 0 && |items| == |keys|
    requires ValidOrders(Schedule(|keys|, c.cfg.maxThreads), orders, Filter(keys, specific))
    ensures DownloadLoop(c, keys, pathLocal, specific, items, orders) ==
      Finish(c, RunBatches(Schedule(|keys|, c.cfg.maxThreads), orders, Filter(keys, specific),
                           DownloadEntries(keys, pathLocal, items), c.errors, DownloadFailure))
  {
  }

  /** The batch loop of a download with no filter over workers that record
      nothing, on an empty log: no raise, every key started, last first. */
  lemma CleanDownloadRun(maxThreads: int, keys: seq<string>, e: seq<Option<string>>, orders: seq<seq<nat>>)
    requires maxThreads >= 1
    requires ValidOrders(Schedule(|keys|, maxThreads), orders, Filter(keys, ""))
    requires forall i :: 0 <= i < |e| ==> e[i].None?
    ensures RunBatches(Schedule(|keys|, maxThreads), orders, Filter(keys, ""), e, [], DownloadFailure) ==
      Run(Descending(|keys|, |keys|), [], None)
  {
    FilterNothing(keys);
    CleanRunStartsEverything(|keys|, maxThreads, orders, e, DownloadFailure);
  }

  /** A failed listing ends the download before any worker starts. */
  lemma DownloadStopsOnFailedListing(c: Client, path: string, pathLocal: string, specific: string, w: DownloadWorld)
    requires DownloadFits(c, w, specific)
    requires Guard(c, w.guard).Done? && Guard(c, w.guard).result.Ok?
    requires var f := FetchAllFiles(Guard(c, w.guard).client, w.fetchGuard, StripSlashes(path), w.listing);
      f.Done? && f.result.Err?
    ensures var r := Download(c, path, pathLocal, specific, w);
      r.Transfer? && r.started == [] && r.fault.Some?
  {
  }

  /** An unreachable listing ends the download with the transport fault,
      before any worker starts and with the log as the guard left it. */
  lemma DownloadStopsOnUnreachableListing(c: Client, path: string, pathLocal: string, specific: string, w: DownloadWorld)
    requires DownloadFits(c, w, specific) && w.listing.ListingUnreachable?
    requires Guard(c, w.guard).Done? && Guard(c, w.guard).result.Ok?
    requires Guard(Guard(c, w.guard).client, w.fetchGuard).Done?
    requires Guard(Guard(c, w.guard).client, w.fetchGuard).result.Ok?
    ensures Download(c, path, pathLocal, specific, w) ==
      Transfer(Guard(Guard(c, w.guard).client, w.fetchGuard).client, [], Some(Transport))
  {
  }

  // ---------------------------------------------------------------------------
  // Scenarios

  /** Seven files with three threads run as batches of three, three and one,
      from the last file down. */
  lemma SevenFilesThreeThreads()
    ensures Schedule(7, 3) == [[6, 5, 4], [3, 2, 1], [0]]
  {
    var b0 := Descending(7, 3);
    assert b0 == [6, 5, 4] by { assert b0[0] == 6 && b0[1] == 5 && b0[2] == 4; }
    ScheduleStep(7, 3, b0, 4);
    var b1 := Descending(4, 3);
    assert b1 == [3, 2, 1] by { assert b1[0] == 3 && b1[1] == 2 && b1[2] == 1; }
    ScheduleStep(4, 3, b1, 1);
    var b2 := Descending(1, 1);
    assert b2 == [0] by { assert b2[0] == 0; }
    ScheduleStep(1, 3, b2, 0);
  }

  /** Five files with two threads run as batches of two, two and one. */
  lemma FiveFilesTwoThreads()
    ensures Schedule(5, 2) == [[4, 3], [2, 1], [0]]
  {
    var b0 := Descending(5, 2);
    assert b0 == [4, 3] by { assert b0[0] == 4 && b0[1] == 3; }
    ScheduleStep(5, 2, b0, 3);
    var b1 := Descending(3, 2);
    assert b1 == [2, 1] by { assert b1[0] == 2 && b1[1] == 1; }
    ScheduleStep(3, 2, b1, 1);
    var b2 := Descending(1, 1);
    assert b2 == [0] by { assert b2[0] == 0; }
    ScheduleStep(1, 2, b2, 0);
  }

  /** A completion order of the workers 2 and 1, of which only 2 records a
      message, records exactly that message. */
  lemma OneMessageInAnyOrder(order: seq<nat>, entry: seq<Option<string>>, m: string)
    requires multiset(order) == multiset(Launched([2, 1], Everything(5)))
    requires |entry| == 5 && entry[2] == Some(m) && entry[1].None?
    ensures Records(order, entry) == [m]
  {
    assert Launched([2, 1], Everything(5)) == [2, 1];
    assert Records([2, 1], entry) == [m];
    BatchRecordsEmptyIff(order, [2, 1], Everything(5), entry);
    var recs := Records(order, entry);
    assert multiset(recs) == multiset{m};
    assert |recs| == |multiset(recs)| == 1;
    assert recs[0] in multiset(recs);
  }

  /** Only the second batch of the five-file schedule records a message
      when only index 2 fails. */
  lemma SecondBatchAloneFails(entry: seq<Option<string>>, m: string)
    requires entry == [None, None, Some(m), None, None]
    ensures BatchErrors([4, 3], Everything(5), entry) == []
    ensures BatchErrors([2, 1], Everything(5), entry) == [m]
  {
    assert Launched([3], Everything(5)) == [3];
    assert Launched([4, 3], Everything(5)) == [4, 3];
    assert Launched([1], Everything(5)) == [1];
    assert Launched([2, 1], Everything(5)) == [2, 1];
    assert Records([3], entry) == [];
    assert Records([4, 3], entry) == [];
    assert Records([1], entry) == [];
    assert Records([2, 1], entry) == [m];
  }

  /** The first two batches of the five-file schedule start 4, 3, 2 and 1. */
  lemma FirstTwoBatchesStart()
    ensures AllLaunched([[4, 3], [2, 1]], Everything(5)) == [4, 3, 2, 1]
  {
    assert Launched([3], Everything(5)) == [3];
    assert Launched([4, 3], Everything(5)) == [4, 3];
    assert Launched([1], Everything(5)) == [1];
    assert Launched([2, 1], Everything(5)) == [2, 1];
    assert [[4, 3], [2, 1]][1..] == [[2, 1]];
    assert AllLaunched([[2, 1]], Everything(5)) == [2, 1];
  }

  /** The five-file run raises at its second batch, with that batch's
      records in completion order. */
  lemma FiveFilesRaiseAtSecondBatch(b: seq<seq<nat>>, orders: seq<seq<nat>>, entry: seq<Option<string>>, m: string)
    requires b == [[4, 3], [2, 1], [0]]
    requires entry == [None, None, Some(m), None, None]
    requires ValidOrders(b, orders, Everything(5))
    ensures RunBatches(b, orders, Everything(5), entry, [], DownloadFailure) ==
      Run(AllLaunched(b[..2], Everything(5)), [], Some(DownloadFailure + Join(Records(orders[1], entry), Separator)))
  {
    SecondBatchAloneFails(entry, m);
    FailsAtSecondBatch(b, orders, Everything(5), entry, DownloadFailure);
  }

  /** Fail-fast at batch 1 when batch 0 is clean. */
  lemma FailsAtSecondBatch(batches: seq<seq<nat>>, orders: seq<seq<nat>>, launch: seq<bool>,
                           entry: seq<Option<string>>, prefix: string)
    requires ValidOrders(batches, orders, launch)
    requires 1 < |batches|
    requires BatchErrors(batches[0], launch, entry) == []
    requires BatchErrors(batches[1], launch, entry) != []
    ensures RunBatches(batches, orders, launch, entry, [], prefix) ==
      Run(AllLaunched(batches[..2], launch), [], Some(prefix + Join(Records(orders[1], entry), Separator)))
  {
    RunFailsFastAt(batches, orders, launch, entry, prefix, 1);
  }

  /** The second batch of the five-file run records the one message,
      whatever order its workers finish in. */
  lemma FiveFilesSecondBatchRecords(b: seq<seq<nat>>, orders: seq<seq<nat>>, entry: seq<Option<string>>, m: string)
    requires b == [[4, 3], [2, 1], [0]]
    requires entry == [None, None, Some(m), None, None]
    requires ValidOrders(b, orders, Everything(5))
    ensures Records(orders[1], entry) == [m]
  {
    assert multiset(orders[1]) == multiset(Launched([2, 1], Everything(5)));
    OneMessageInAnyOrder(orders[1], entry, m);
  }

  /** The batch loop over five files with two threads (the schedule of
      `FiveFilesTwoThreads`), where only the worker of index 2 records:
      the second batch raises, the workers of indices 4, 3, 2 and 1 were
      started, index 0 never was, and the message is the download failure
      prefix with the one worker message. */
  lemma FiveFilesRunStopsAtThird(batches: seq<seq<nat>>, orders: seq<seq<nat>>, entry: seq<Option<string>>, name: string)
    requires batches == [[4, 3], [2, 1], [0]]
    requires entry == [None, None, Some("Could not download " + name), None, None]
    requires ValidOrders(batches, orders, Everything(5))
    ensures var run := RunBatches(batches, orders, Everything(5), entry, [], DownloadFailure);
      && run.started == [4, 3, 2, 1]
      && run.log == []
      && run.raised == Some(DownloadFailure + ("Could not download " + name))
  {
    var m := "Could not download " + name;
    FiveFilesRaiseAtSecondBatch(batches, orders, entry, m);
    var run := RunBatches(batches, orders, Everything(5), entry, [], DownloadFailure);
    assert run.started == [4, 3, 2, 1] by {
      var firstTwo := batches[..2];
      assert firstTwo == [[4, 3], [2, 1]];
      FirstTwoBatchesStart();
    }
    assert run.raised == Some(DownloadFailure + m) by {
      FiveFilesSecondBatchRecords(batches, orders, entry, m);
      assert Join([m], Separator) == m;
    }
  }

  /** Five listed files, where only the third popped file (index 2) gets a
      failed response and the others download and are written: the worker
      messages are that one "Could not download" message. */
  lemma FiveFilesEntries(keys: seq<string>, pathLocal: string, items: seq<DownloadItem>)
    requires |keys| == 5 && |items| == 5
    requires items[2].Fetched? && !items[2].ok
    requires forall i :: 0 <= i < 5 && i != 2 ==> items[i] == Fetched(true, true)
    ensures DownloadEntries(keys, pathLocal, items) ==
      [None, None, Some("Could not download " + keys[2]), None, None]
  {
    var e := DownloadEntries(keys, pathLocal, items);
    forall i | 0 <= i < 5 ensures e[i] == [None, None, Some("Could not download " + keys[2]), None, None][i] {
      DownloadEntryMeaning(keys[i], pathLocal, items[i]);
    }
  }

  /** `Download`'s loop over five listed files with two threads and no
      filter, where only the file of index 2 gets a failed response: the
      loop raises "Could not download all files: Could not download " and
      that file's name, after starting the workers of indices 4, 3, 2 and 1;
      index 0 is never started, and the log is left empty. */
  lemma FiveFilesThirdFails(c: Client, keys: seq<string>, pathLocal: string,
                            items: seq<DownloadItem>, orders: seq<seq<nat>>)
    requires c.errors == [] && c.cfg.maxThreads == 2
    requires |keys| == 5 && |items| == 5
    requires items[2].Fetched? && !items[2].ok
    requires forall i :: 0 <= i < 5 && i != 2 ==> items[i] == Fetched(true, true)
    requires ValidOrders(Schedule(5, 2), orders, Filter(keys, ""))
    ensures DownloadLoop(c, keys, pathLocal, "", items, orders) ==
      Transfer(c, [4, 3, 2, 1], Some(Raised(DownloadFailure + ("Could not download " + keys[2]))))
  {
    FiveFilesTwoThreads();
    FilterNothing(keys);
    FiveFilesEntries(keys, pathLocal, items);
    FiveFilesRunStopsAtThird(Schedule(5, 2), orders, DownloadEntries(keys, pathLocal, items), keys[2]);
  }
}

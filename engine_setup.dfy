/** The checks `setup(d)` makes of the user's model in both engines: every
    function named in the list must be given as source text, and is
    installed on the model API as soon as it is checked; `init()` must
    return a non-empty array and `detectors()` an array of strings. A user
    function is given here by what it returns. */
module EngineSetup {
  import opened EngineOper

  datatype Option<T> = None | Some(value: T)

  /** What `model.init()` returns. */
  datatype InitReply = InitNotArray | InitStates(states: seq<int>)

  /** One entry of the reply of `model.detectors()`. */
  datatype Detector = Named(name: string) | NotText

  /** What `model.detectors()` returns. */
  datatype DetectorsReply = DetectorsNotArray | DetectorList(items: seq<Detector>)

  /** `d.model`: for each function, `None` when its source is not a string,
      and otherwise the compiled function. `probs` is only ever checked for
      presence. */
  datatype ModelText = ModelText(init: Option<InitReply>, oper: Option<seq<int> -> OperReply>,
                                 coord: Option<int -> int>, probs: bool, show: Option<int -> bool>,
                                 detectors: Option<DetectorsReply>)

  /** The functions of the model API that `next` calls; `None` for one never
      installed. */
  datatype Callbacks = Callbacks(oper: Option<seq<int> -> OperReply>, coord: Option<int -> int>, show: Option<int -> bool>)

  /** The list `setup` walks in `lib/wwmodel.js`. */
  const LocalNames: seq<string> := ["init", "oper", "coord", "probs", "show", "detectors"]

  /** The list `setup` walks in `server/model.mjs`, which has no `probs`. */
  const ServerNames: seq<string> := ["init", "oper", "coord", "show", "detectors"]

  /** `typeof d.model[x] === 'string'`. */
  predicate Given(mt: ModelText, x: string) {
    if x == "init" then mt.init.Some?
    else if x == "oper" then mt.oper.Some?
    else if x == "coord" then mt.coord.Some?
    else if x == "probs" then mt.probs
    else if x == "show" then mt.show.Some?
    else if x == "detectors" then mt.detectors.Some?
    else false
  }

  /** `ModelAPI.prototype[x] = new Function(...)`, for the functions `next`
      calls. */
  function InstallOne(cb: Callbacks, mt: ModelText, x: string): Callbacks {
    if x == "oper" then cb.(oper := mt.oper)
    else if x == "coord" then cb.(coord := mt.coord)
    else if x == "show" then cb.(show := mt.show)
    else cb
  }

  /** The `forEach` over `names`: the callbacks afterwards, and the first
      name that was missing, where the walk stopped. */
  function Install(cb: Callbacks, mt: ModelText, names: seq<string>): (Callbacks, Option<string>)
    decreases |names|
  {
    if names == [] then (cb, None)
    else
      var pre := Install(cb, mt, names[..|names| - 1]);
      var x := names[|names| - 1];
      if pre.1.Some? then pre
      else if Given(mt, x) then (InstallOne(pre.0, mt, x), None)
      else (pre.0, Some(x))
  }

  /** The walk fails exactly when some name is missing, and then it reports
      the first one. */
  lemma {:induction false} InstallReportsFirstMissing(cb: Callbacks, mt: ModelText, names: seq<string>)
    ensures Install(cb, mt, names).1.None? <==> forall k :: 0 <= k < |names| ==> Given(mt, names[k])
    ensures Install(cb, mt, names).1.Some? ==>
      exists k :: 0 <= k < |names| && names[k] == Install(cb, mt, names).1.value && !Given(mt, names[k]) &&
        forall j :: 0 <= j < k ==> Given(mt, names[j])
    decreases |names|
  {
    if names != [] {
      var n := |names|;
      var pre := names[..n - 1];
      InstallReportsFirstMissing(cb, mt, pre);
      assert forall k :: 0 <= k < n - 1 ==> pre[k] == names[k];
      if Install(cb, mt, pre).1.Some? {
        var k :| 0 <= k < n - 1 && pre[k] == Install(cb, mt, pre).1.value && !Given(mt, pre[k]) &&
          forall j :: 0 <= j < k ==> Given(mt, pre[j]);
        assert names[k] == pre[k];
      }
    }
  }

  /** After a walk that finds every function, each callback is the user's
      when its name is on the list and the old one otherwise. */
  lemma {:induction false} InstallFields(cb: Callbacks, mt: ModelText, names: seq<string>)
    ensures Install(cb, mt, names).1.None? ==>
      Install(cb, mt, names).0 == Callbacks(if "oper" in names then mt.oper else cb.oper,
                                            if "coord" in names then mt.coord else cb.coord,
                                            if "show" in names then mt.show else cb.show)
    decreases |names|
  {
    if names != [] {
      var pre := names[..|names| - 1];
      InstallFields(cb, mt, pre);
      assert names == pre + [names[|names| - 1]];
    }
  }

  /** On either engine's list a complete walk installs exactly the user's
      `oper`, `coord` and `show`. */
  lemma InstallComplete(cb: Callbacks, mt: ModelText, names: seq<string>)
    requires names == LocalNames || names == ServerNames
    ensures Install(cb, mt, names).1.None? ==>
      Install(cb, mt, names).0 == Callbacks(mt.oper, mt.coord, mt.show) && mt.oper.Some? && mt.coord.Some? && mt.show.Some?
  {
    InstallFields(cb, mt, names);
    InstallReportsFirstMissing(cb, mt, names);
    assert names[1] == "oper" && names[2] == "coord";
    assert names[|names| - 2] == "show";
  }

  /** `oper`, `coord` and `show` are all installed. */
  predicate Installed(cb: Callbacks) {
    cb.oper.Some? && cb.coord.Some? && cb.show.Some?
  }

  /** A walk only ever installs given functions, so it never uninstalls one. */
  lemma {:induction false} InstallKeepsInstalled(cb: Callbacks, mt: ModelText, names: seq<string>)
    requires Installed(cb)
    ensures Installed(Install(cb, mt, names).0)
    decreases |names|
  {
    if names != [] {
      InstallKeepsInstalled(cb, mt, names[..|names| - 1]);
    }
  }

  /** A complete walk over either list finds `init` and `detectors` and
      installs the user's `oper`, `coord` and `show`. */
  lemma InstallGivesAll(cb: Callbacks, mt: ModelText, names: seq<string>)
    requires names == LocalNames || names == ServerNames
    requires Install(cb, mt, names).1.None?
    ensures mt.init.Some? && mt.detectors.Some? && Installed(Install(cb, mt, names).0)
    ensures Install(cb, mt, names).0 == Callbacks(mt.oper, mt.coord, mt.show)
  {
    InstallReportsFirstMissing(cb, mt, names);
    InstallComplete(cb, mt, names);
    assert Given(mt, names[0]) && Given(mt, names[|names| - 1]);
  }

  /** The `forEach` loop itself. */
  method InstallAll(cb0: Callbacks, mt: ModelText, names: seq<string>) returns (cb: Callbacks, missing: Option<string>)
    ensures (cb, missing) == Install(cb0, mt, names)
  {
    cb, missing := cb0, None;
    for k := 0 to |names|
      invariant (cb, missing) == Install(cb0, mt, names[..k]) && missing.None?
    {
      assert names[..k + 1][..k] == names[..k];
      var x := names[k];
      if !Given(mt, x) {
        InstallStops(cb0, mt, names, k + 1);
        return cb, Some(x);
      }
      cb := InstallOne(cb, mt, x);
    }
    assert names[..|names|] == names;
  }

  /** Nothing after the first missing name is installed. */
  lemma {:induction false} InstallStops(cb: Callbacks, mt: ModelText, names: seq<string>, m: nat)
    requires m <= |names| && Install(cb, mt, names[..m]).1.Some?
    ensures Install(cb, mt, names) == Install(cb, mt, names[..m])
    decreases |names|
  {
    if m < |names| {
      assert names[..|names| - 1][..m] == names[..m];
      InstallStops(cb, mt, names[..|names| - 1], m);
    } else {
      assert names[..m] == names;
    }
  }

  /** The error for a missing function. */
  function MissingFunction(x: string): Error {
    TypeError("Missing function: " + x + ".")
  }

  /** The checks of the initial states. */
  function InitChecked(r: InitReply): (o: Outcome<seq<int>>)
    ensures o.Done? <==> r.InitStates? && r.states != []
    ensures o.Done? ==> o.value == r.states
  {
    match r
      case InitNotArray => Threw(TypeError("Initial state was not an array."))
      case InitStates(states) =>
        if states == [] then Threw(TypeError("Initial state was empty.")) else Done(states)
  }

  /** The checks of the detectors: an array, and a string in every entry. */
  function DetectorsChecked(r: DetectorsReply): (o: Outcome<seq<string>>)
    ensures o.Done? <==> r.DetectorList? && forall i :: 0 <= i < |r.items| ==> r.items[i].Named?
    ensures o.Done? ==> |o.value| == |r.items| && forall i :: 0 <= i < |r.items| ==> o.value[i] == r.items[i].name
  {
    match r
      case DetectorsNotArray => Threw(TypeError("Detectors did not return an array."))
      case DetectorList(items) =>
        if exists i :: 0 <= i < |items| && items[i].NotText? then Threw(TypeError("One of the detectors was not a string."))
        else Done(seq(|items|, i requires 0 <= i < |items| => items[i].name))
  }
}

/** Commodities: adding one with its parameter groups, the buyer's search over all
    commodities or over one shop's, and the buyer's bookmarks. */
module CommodityApi {
  import opened Wrappers
  import opened Models
  import opened Util
  import opened Seqs
  import opened Text
  import opened Paginator
  import opened QueryUtil
  import opened Marks
  import OrderApi

  const NoShopRightMsg: string := "你没有权限操作这个店铺"
  const ImageMissingMsg: string := "图片不存在！"
  const BadInitialStatusMsg: string := "商品初始状态错误"
  const AlreadyCollectedMsg: string := "你已经收藏过了"
  const CollectStateMsg: string := "收藏状态出错"

  // ---------------------------------------------------------------------------------------
  // Adding a commodity

  /** One entry of the `para_set` list: a group name and its options in the order of the
      `options` object, each with its surcharge. */
  datatype ParaSetSpec = ParaSetSpec(name: string, options: seq<(string, Cents)>)

  /** The body of `add_commodity` once `require_keys` has let it through. `status` is `None`
      when the number sent names no commodity status at all. */
  datatype NewCommodity = NewCommodity(
    name: string, introduction: Option<string>, status: Option<CommStatus>,
    total: int, price: Cents, discount: Cents, tradeMethod: int,
    imageIds: seq<Id>, paraSets: seq<ParaSetSpec>)

  /** The statuses a commodity may be created in: not yet effective, pre-sale, on sale. */
  predicate InitialStatusOk(s: Option<CommStatus>) {
    s == Some(Invalid) || s == Some(PreSell) || s == Some(OnSell)
  }

  /** The group table `sets` with a row added for each `para_set` entry; auto-increment
      numbers them from `firstSet`. */
  function AddSets(sets: map<Id, ParaSet>, specs: seq<ParaSetSpec>, commodity: Id, firstSet: Id): map<Id, ParaSet>
    decreases |specs|
  {
    if |specs| == 0 then sets
    else
      var n := |specs| - 1;
      AddSets(sets, specs[..n], commodity, firstSet)[firstSet + n := ParaSet(firstSet + n, commodity, specs[n].name)]
  }

  /** Entry `j` of `para_set` becomes the group with id `firstSet + j`, of the new commodity and
      with the entry's name; no other group is created and the groups outside that range stay
      as they were. */
  lemma {:induction false} EveryEntryBecomesParaSet(sets: map<Id, ParaSet>, specs: seq<ParaSetSpec>, commodity: Id, firstSet: Id)
    ensures forall id :: id in AddSets(sets, specs, commodity, firstSet) <==> id in sets || firstSet <= id < firstSet + |specs|
    ensures forall id :: firstSet <= id < firstSet + |specs| ==>
      AddSets(sets, specs, commodity, firstSet)[id] == ParaSet(id, commodity, specs[id - firstSet].name)
    ensures forall id :: id in sets && !(firstSet <= id < firstSet + |specs|) ==>
      AddSets(sets, specs, commodity, firstSet)[id] == sets[id]
    decreases |specs|
  {
    if |specs| > 0 {
      var n := |specs| - 1;
      EveryEntryBecomesParaSet(sets, specs[..n], commodity, firstSet);
      assert forall j :: 0 <= j < n ==> specs[..n][j] == specs[j];
    }
  }

  /** The option rows of one group, numbered from `firstId`. */
  function GroupRows(options: seq<(string, Cents)>, setId: Id, firstId: Id): (r: seq<Parameter>)
    ensures |r| == |options|
    ensures forall m :: 0 <= m < |options| ==> r[m] == Parameter(firstId + m, options[m].0, setId, options[m].1)
  {
    seq(|options|, m requires 0 <= m < |options| => Parameter(firstId + m, options[m].0, setId, options[m].1))
  }

  /** The option rows of all groups, group after group; group `j` has id `firstSet + j` and
      the options are numbered consecutively from `firstParam`. */
  function OptionRows(specs: seq<ParaSetSpec>, firstSet: Id, firstParam: Id): seq<Parameter>
    decreases |specs|
  {
    if |specs| == 0 then []
    else
      var n := |specs| - 1;
      var before := OptionRows(specs[..n], firstSet, firstParam);
      before + GroupRows(specs[n].options, firstSet + n, firstParam + |before|)
  }

  /** How many options the groups before group `j` have. */
  function OptionsBefore(specs: seq<ParaSetSpec>, j: nat): nat
    requires j <= |specs|
  {
    if j == 0 then 0 else OptionsBefore(specs, j - 1) + |specs[j - 1].options|
  }

  /** The table `params` with `rows` stored one after the other by id, a later row replacing
      an earlier one with the same id. */
  function Store(params: map<Id, Parameter>, rows: seq<Parameter>): map<Id, Parameter>
    decreases |rows|
  {
    if |rows| == 0 then params
    else
      var n := |rows| - 1;
      Store(params, rows[..n])[rows[n].id := rows[n]]
  }

  /** Option `m` of group `j` is the row at position `OptionsBefore(j) + m`: it has the
      option's description and surcharge, belongs to group `firstSet + j` and gets the next
      number. So every option becomes exactly one parameter of its own group. */
  lemma {:induction false} EveryOptionBecomesParameter(specs: seq<ParaSetSpec>, firstSet: Id, firstParam: Id, j: nat, m: nat)
    requires j < |specs| && m < |specs[j].options|
    ensures |OptionRows(specs, firstSet, firstParam)| == OptionsBefore(specs, |specs|)
    ensures OptionsBefore(specs, j) + m < |OptionRows(specs, firstSet, firstParam)|
    ensures OptionRows(specs, firstSet, firstParam)[OptionsBefore(specs, j) + m]
      == Parameter(firstParam + OptionsBefore(specs, j) + m, specs[j].options[m].0, firstSet + j, specs[j].options[m].1)
    decreases |specs|
  {
    var n := |specs| - 1;
    var prefix := specs[..n];
    OptionRowsCount(specs, firstSet, firstParam);
    OptionsBeforePrefix(specs, n, j);
    if j < n {
      EveryOptionBecomesParameter(prefix, firstSet, firstParam, j, m);
    } else {
      OptionRowsCount(prefix, firstSet, firstParam);
    }
  }

  lemma {:induction false} OptionRowsCount(specs: seq<ParaSetSpec>, firstSet: Id, firstParam: Id)
    ensures |OptionRows(specs, firstSet, firstParam)| == OptionsBefore(specs, |specs|)
    decreases |specs|
  {
    if |specs| > 0 {
      var n := |specs| - 1;
      OptionRowsCount(specs[..n], firstSet, firstParam);
      OptionsBeforePrefix(specs, n, n);
    }
  }

  /** Counting in a prefix agrees with counting in the whole list. */
  lemma {:induction false} OptionsBeforePrefix(specs: seq<ParaSetSpec>, n: nat, j: nat)
    requires j <= n <= |specs|
    ensures OptionsBefore(specs[..n], j) == OptionsBefore(specs, j)
    decreases j
  {
    if j > 0 {
      OptionsBeforePrefix(specs, n, j - 1);
      assert specs[..n][j - 1] == specs[j - 1];
    }
  }

  /** The row `add_commodity` creates: nothing sold yet, the first image as the preview. */
  function NewRow(body: NewCommodity, id: Id, shopId: Id): Commodity
    requires |body.imageIds| > 0 && body.status.Some?
  {
    Commodity(id, body.name, body.introduction, body.status.value, body.total, 0, body.price,
              body.discount, shopId, body.tradeMethod, body.imageIds[0], {})
  }

  /** The other images that exist; the ones that do not are skipped. */
  function ExtraImages(imageIds: seq<Id>, files: set<Id>): set<Id> {
    set i | 1 <= i < |imageIds| && imageIds[i] in files :: imageIds[i]
  }

  /** Storing two runs of rows is storing the first run, then the second. */
  lemma {:induction false} StoreAppend(params: map<Id, Parameter>, a: seq<Parameter>, b: seq<Parameter>)
    ensures Store(params, a + b) == Store(Store(params, a), b)
    decreases |b|
  {
    if |b| > 0 {
      var n := |b| - 1;
      assert (a + b)[..|a + b| - 1] == a + b[..n];
      StoreAppend(params, a, b[..n]);
    } else {
      assert a + b == a;
    }
  }

  /** Rows numbered consecutively from `first` land under their own ids, and the rows outside
      that range stay as they were. */
  lemma {:induction false} StoreConsecutive(params: map<Id, Parameter>, rows: seq<Parameter>, first: Id)
    requires forall k :: 0 <= k < |rows| ==> rows[k].id == first + k
    ensures forall id :: id in Store(params, rows) <==> id in params || first <= id < first + |rows|
    ensures forall k :: 0 <= k < |rows| ==> Store(params, rows)[rows[k].id] == rows[k]
    ensures forall id :: id in params && !(first <= id < first + |rows|) ==> Store(params, rows)[id] == params[id]
    decreases |rows|
  {
    if |rows| > 0 {
      var n := |rows| - 1;
      assert forall k :: 0 <= k < n ==> rows[..n][k] == rows[k];
      StoreConsecutive(params, rows[..n], first);
    }
  }

  /** Option row `k` gets the id `firstParam + k`. */
  lemma {:induction false} OptionRowIds(specs: seq<ParaSetSpec>, firstSet: Id, firstParam: Id)
    ensures forall k :: 0 <= k < |OptionRows(specs, firstSet, firstParam)| ==> OptionRows(specs, firstSet, firstParam)[k].id == firstParam + k
    decreases |specs|
  {
    if |specs| > 0 {
      var n := |specs| - 1;
      OptionRowIds(specs[..n], firstSet, firstParam);
    }
  }

  /** After the loop, option `m` of group `j` is the parameter with id
      `firstParam + OptionsBefore(j) + m`, of group `firstSet + j`, with the option's
      description and surcharge; the table holds exactly the old rows and the new ids. */
  lemma AddedParameter(params: map<Id, Parameter>, specs: seq<ParaSetSpec>, firstSet: Id, firstParam: Id, j: nat, m: nat)
    requires j < |specs| && m < |specs[j].options|
    ensures forall id :: id in Store(params, OptionRows(specs, firstSet, firstParam)) <==>
      id in params || firstParam <= id < firstParam + OptionsBefore(specs, |specs|)
    ensures var id := firstParam + OptionsBefore(specs, j) + m;
      id in Store(params, OptionRows(specs, firstSet, firstParam))
      && Store(params, OptionRows(specs, firstSet, firstParam))[id]
         == Parameter(id, specs[j].options[m].0, firstSet + j, specs[j].options[m].1)
  {
    var rows := OptionRows(specs, firstSet, firstParam);
    EveryOptionBecomesParameter(specs, firstSet, firstParam, j, m);
    OptionRowIds(specs, firstSet, firstParam);
    StoreConsecutive(params, rows, firstParam);
    assert rows[OptionsBefore(specs, j) + m].id == firstParam + OptionsBefore(specs, j) + m;
  }

  /** Whether an option's description and surcharge fit their columns. */
  predicate OptionFits(option: (string, Cents)) {
    FitsChars(option.0, ParameterDescriptionMax) && FitsDecimal82(option.1)
  }

  /** How many options are stored before the first one that does not fit: all of them when
      every one fits. */
  function OptionsFitting(options: seq<(string, Cents)>): (k: nat)
    ensures k <= |options|
    decreases |options|
  {
    if |options| == 0 || !OptionFits(options[0]) then 0 else OptionsFitting(options[1..]) + 1
  }

  /** The options before `OptionsFitting` fit, and the one at that index does not. */
  lemma {:induction false} OptionsFittingIsFirstFault(options: seq<(string, Cents)>)
    ensures forall m :: 0 <= m < OptionsFitting(options) ==> OptionFits(options[m])
    ensures OptionsFitting(options) < |options| ==> !OptionFits(options[OptionsFitting(options)])
    decreases |options|
  {
    if |options| > 0 && OptionFits(options[0]) {
      OptionsFittingIsFirstFault(options[1..]);
      assert forall m :: 1 <= m <= |options| - 1 ==> options[m] == options[1..][m - 1];
    }
  }

  /** Whether a group's name and all its options fit their columns. */
  predicate GroupFits(spec: ParaSetSpec) {
    FitsChars(spec.name, ParaSetNameMax) && forall m :: 0 <= m < |spec.options| ==> OptionFits(spec.options[m])
  }

  /** Every group fits, so the `para_set` loop writes all its rows. */
  predicate AllGroupsFit(specs: seq<ParaSetSpec>) {
    forall i :: 0 <= i < |specs| ==> GroupFits(specs[i])
  }

  /** Group `j` is the first that does not fit: the loop raises while writing it. */
  predicate StopsAt(specs: seq<ParaSetSpec>, j: int) {
    0 <= j < |specs| && !GroupFits(specs[j]) && forall i :: 0 <= i < j ==> GroupFits(specs[i])
  }

  /** Either every group fits or there is a first one that does not, and only one. */
  lemma {:induction false} FitOrStop(specs: seq<ParaSetSpec>)
    ensures AllGroupsFit(specs) <==> !exists j :: StopsAt(specs, j)
    ensures forall j, k :: StopsAt(specs, j) && StopsAt(specs, k) ==> j == k
    decreases |specs|
  {
    if |specs| > 0 {
      var n := |specs| - 1;
      FitOrStop(specs[..n]);
      assert forall i :: 0 <= i < n ==> specs[..n][i] == specs[i];
      if !AllGroupsFit(specs[..n]) {
        var j :| StopsAt(specs[..n], j);
        assert StopsAt(specs, j);
      } else if !GroupFits(specs[n]) {
        assert StopsAt(specs, n);
      }
    }
  }

  /** The option rows one entry of the loop writes before it raises: none when its name does
      not fit, else its options before the first one at fault. */
  function GroupRowsWritten(spec: ParaSetSpec, setId: Id, firstId: Id): seq<Parameter> {
    if FitsChars(spec.name, ParaSetNameMax) then GroupRows(spec.options[..OptionsFitting(spec.options)], setId, firstId)
    else []
  }

  /** The group rows the `para_set` loop has written when it raises at group `j`: those of
      the earlier groups, and group `j`'s own when only one of its options is at fault. */
  function SetsWrittenAt(sets: map<Id, ParaSet>, specs: seq<ParaSetSpec>, j: nat, commodity: Id, firstSet: Id): map<Id, ParaSet>
    requires j < |specs|
  {
    var before := AddSets(sets, specs[..j], commodity, firstSet);
    if FitsChars(specs[j].name, ParaSetNameMax) then before[firstSet + j := ParaSet(firstSet + j, commodity, specs[j].name)]
    else before
  }

  /** The option rows the `para_set` loop has written when it raises at group `j`: those of
      the earlier groups, then what group `j` writes. */
  function RowsWrittenAt(specs: seq<ParaSetSpec>, j: nat, firstSet: Id, firstParam: Id): seq<Parameter>
    requires j < |specs|
  {
    var before := OptionRows(specs[..j], firstSet, firstParam);
    before + GroupRowsWritten(specs[j], firstSet + j, firstParam + |before|)
  }

  /** The inner loop: one Parameter row per option, numbered from `firstId`, up to the first
      option that does not fit, whose insertion raises. */
  method CreateOptions(db: Database, options: seq<(string, Cents)>, setId: Id, firstId: Id) returns (ok: bool)
    modifies db`parameters
    ensures ok <==> OptionsFitting(options) == |options|
    ensures db.parameters == Store(old(db.parameters), GroupRows(options[..OptionsFitting(options)], setId, firstId))
  {
    OptionsFittingIsFirstFault(options);
    for m := 0 to |options|
      invariant forall i :: 0 <= i < m ==> OptionFits(options[i])
      invariant db.parameters == Store(old(db.parameters), GroupRows(options[..m], setId, firstId))
    {
      if !OptionFits(options[m]) {
        return false;
      }
      var p := Parameter(firstId + m, options[m].0, setId, options[m].1);
      GroupRowsStep(options, m, setId, firstId);
      db.parameters := db.parameters[firstId + m := p];
    }
    assert options[..|options|] == options;
    return true;
  }

  /** One more option stores one more row. */
  lemma GroupRowsStep(options: seq<(string, Cents)>, m: nat, setId: Id, firstId: Id)
    requires m < |options|
    ensures var p := Parameter(firstId + m, options[m].0, setId, options[m].1);
      forall params :: Store(params, GroupRows(options[..m + 1], setId, firstId))
        == Store(params, GroupRows(options[..m], setId, firstId))[firstId + m := p]
  {
    var p := Parameter(firstId + m, options[m].0, setId, options[m].1);
    assert GroupRows(options[..m + 1], setId, firstId)[..m] == GroupRows(options[..m], setId, firstId);
  }

  /** One entry of the `para_set` loop: its ParaSet row, then its options; `ok` is false when
      one of the insertions raises, after the rows before it. */
  method CreateParaSet(db: Database, commodityId: Id, spec: ParaSetSpec, setId: Id, firstId: Id) returns (ok: bool)
    modifies db`paraSets, db`parameters
    ensures ok <==> GroupFits(spec)
    ensures db.paraSets == if FitsChars(spec.name, ParaSetNameMax) then old(db.paraSets)[setId := ParaSet(setId, commodityId, spec.name)]
                           else old(db.paraSets)
    ensures db.parameters == Store(old(db.parameters), GroupRowsWritten(spec, setId, firstId))
  {
    if !FitsChars(spec.name, ParaSetNameMax) {
      return false;
    }
    db.paraSets := db.paraSets[setId := ParaSet(setId, commodityId, spec.name)];
    ok := CreateOptions(db, spec.options, setId, firstId);
    OptionsFittingIsFirstFault(spec.options);
  }

  /** One more entry adds its group row. */
  lemma AddSetsStep(sets: map<Id, ParaSet>, specs: seq<ParaSetSpec>, j: nat, commodityId: Id, firstSet: Id)
    requires j < |specs|
    ensures AddSets(sets, specs[..j + 1], commodityId, firstSet)
      == AddSets(sets, specs[..j], commodityId, firstSet)[firstSet + j := ParaSet(firstSet + j, commodityId, specs[j].name)]
  {
    assert specs[..j + 1][..j] == specs[..j];
  }

  /** One more entry appends its options, numbered after the earlier ones. */
  lemma OptionRowsStep(specs: seq<ParaSetSpec>, j: nat, firstSet: Id, firstParam: Id)
    requires j < |specs|
    ensures OptionRows(specs[..j + 1], firstSet, firstParam)
      == OptionRows(specs[..j], firstSet, firstParam)
         + GroupRows(specs[j].options, firstSet + j, firstParam + |OptionRows(specs[..j], firstSet, firstParam)|)
  {
    assert specs[..j + 1][..j] == specs[..j];
  }

  /** One more entry stores its options after the earlier ones. */
  lemma StoreStep(params: map<Id, Parameter>, specs: seq<ParaSetSpec>, j: nat, firstSet: Id, firstParam: Id, next: Id)
    requires j < |specs|
    requires next == firstParam + |OptionRows(specs[..j], firstSet, firstParam)|
    ensures Store(Store(params, OptionRows(specs[..j], firstSet, firstParam)), GroupRows(specs[j].options, firstSet + j, next))
      == Store(params, OptionRows(specs[..j + 1], firstSet, firstParam))
    ensures next + |specs[j].options| == firstParam + |OptionRows(specs[..j + 1], firstSet, firstParam)|
  {
    var before := OptionRows(specs[..j], firstSet, firstParam);
    var group := GroupRows(specs[j].options, firstSet + j, next);
    OptionRowsStep(specs, j, firstSet, firstParam);
    assert OptionRows(specs[..j + 1], firstSet, firstParam) == before + group;
    StoreAppend(params, before, group);
  }

  /** The `para_set` loop of `add_commodity`: a ParaSet row per entry, then its options, up to
      the first insertion that raises; `ok` says whether every row was written. */
  method ExpandParaSets(db: Database, commodityId: Id, specs: seq<ParaSetSpec>, firstSet: Id, firstParam: Id)
    returns (ok: bool, ghost stop: nat)
    modifies db`paraSets, db`parameters
    ensures ok <==> AllGroupsFit(specs)
    ensures ok ==> db.paraSets == AddSets(old(db.paraSets), specs, commodityId, firstSet)
                   && db.parameters == Store(old(db.parameters), OptionRows(specs, firstSet, firstParam))
    ensures !ok ==> StopsAt(specs, stop)
                    && db.paraSets == SetsWrittenAt(old(db.paraSets), specs, stop, commodityId, firstSet)
                    && db.parameters == Store(old(db.parameters), RowsWrittenAt(specs, stop, firstSet, firstParam))
  {
    var next := firstParam;
    stop := 0;
    for j := 0 to |specs|
      invariant forall i :: 0 <= i < j ==> GroupFits(specs[i])
      invariant db.paraSets == AddSets(old(db.paraSets), specs[..j], commodityId, firstSet)
      invariant next == firstParam + |OptionRows(specs[..j], firstSet, firstParam)|
      invariant db.parameters == Store(old(db.parameters), OptionRows(specs[..j], firstSet, firstParam))
    {
      ok := ExpandEntry(db, commodityId, specs, j, firstSet, firstParam, next, old(db.paraSets), old(db.parameters));
      if !ok {
        stop := j;
        return;
      }
      next := next + |specs[j].options|;
    }
    assert specs[..|specs|] == specs;
    return true, 0;
  }

  /** One pass of the `para_set` loop, for entry `j`, stated in terms of the whole loop: after
      it the tables hold the rows of entries up to `j`, or what the loop leaves when it raises
      at `j`. `sets` and `params` are the tables before the loop. */
  method ExpandEntry(db: Database, commodityId: Id, specs: seq<ParaSetSpec>, j: nat, firstSet: Id, firstParam: Id, next: Id,
                     ghost sets: map<Id, ParaSet>, ghost params: map<Id, Parameter>) returns (ok: bool)
    requires j < |specs|
    requires forall i :: 0 <= i < j ==> GroupFits(specs[i])
    requires next == firstParam + |OptionRows(specs[..j], firstSet, firstParam)|
    requires db.paraSets == AddSets(sets, specs[..j], commodityId, firstSet)
    requires db.parameters == Store(params, OptionRows(specs[..j], firstSet, firstParam))
    modifies db`paraSets, db`parameters
    ensures ok <==> GroupFits(specs[j])
    ensures ok ==> forall i :: 0 <= i < j + 1 ==> GroupFits(specs[i])
    ensures !ok ==> StopsAt(specs, j)
    ensures ok ==> db.paraSets == AddSets(sets, specs[..j + 1], commodityId, firstSet)
                   && db.parameters == Store(params, OptionRows(specs[..j + 1], firstSet, firstParam))
                   && next + |specs[j].options| == firstParam + |OptionRows(specs[..j + 1], firstSet, firstParam)|
    ensures !ok ==> db.paraSets == SetsWrittenAt(sets, specs, j, commodityId, firstSet)
                    && db.parameters == Store(params, RowsWrittenAt(specs, j, firstSet, firstParam))
  {
    ok := CreateParaSet(db, commodityId, specs[j], firstSet + j, next);
    if ok {
      AddSetsStep(sets, specs, j, commodityId, firstSet);
      ContinuedPast(params, specs, j, firstSet, firstParam, next);
    } else {
      StoppedPast(params, specs, j, firstSet, firstParam, next);
    }
  }

  /** The option rows the loop leaves when it raises at group `j`. */
  lemma StoppedPast(params: map<Id, Parameter>, specs: seq<ParaSetSpec>, j: nat, firstSet: Id, firstParam: Id, next: Id)
    requires j < |specs|
    requires next == firstParam + |OptionRows(specs[..j], firstSet, firstParam)|
    ensures Store(Store(params, OptionRows(specs[..j], firstSet, firstParam)), GroupRowsWritten(specs[j], firstSet + j, next))
      == Store(params, RowsWrittenAt(specs, j, firstSet, firstParam))
  {
    var before := OptionRows(specs[..j], firstSet, firstParam);
    var written := GroupRowsWritten(specs[j], firstSet + j, next);
    assert RowsWrittenAt(specs, j, firstSet, firstParam) == before + written;
    StoreAppend(params, before, written);
  }

  /** The tables the loop leaves when group `j` fits: its options are stored after those of
      the earlier groups. */
  lemma ContinuedPast(params: map<Id, Parameter>, specs: seq<ParaSetSpec>, j: nat, firstSet: Id, firstParam: Id, next: Id)
    requires j < |specs| && GroupFits(specs[j])
    requires next == firstParam + |OptionRows(specs[..j], firstSet, firstParam)|
    ensures Store(Store(params, OptionRows(specs[..j], firstSet, firstParam)), GroupRowsWritten(specs[j], firstSet + j, next))
      == Store(params, OptionRows(specs[..j + 1], firstSet, firstParam))
    ensures next + |specs[j].options| == firstParam + |OptionRows(specs[..j + 1], firstSet, firstParam)|
  {
    FittingGroupWritesAll(specs[j], firstSet + j, next);
    StoreStep(params, specs, j, firstSet, firstParam, next);
  }

  /** A group that fits writes every one of its options. */
  lemma FittingGroupWritesAll(spec: ParaSetSpec, setId: Id, firstId: Id)
    requires GroupFits(spec)
    ensures GroupRowsWritten(spec, setId, firstId) == GroupRows(spec.options, setId, firstId)
  {
    OptionsFittingIsFirstFault(spec.options);
    assert spec.options[..OptionsFitting(spec.options)] == spec.options;
  }

  /** The option rows of a prefix of the groups come first among those of all the groups. */
  lemma {:induction false} OptionRowsPrefix(specs: seq<ParaSetSpec>, n: nat, firstSet: Id, firstParam: Id)
    requires n <= |specs|
    ensures OptionRows(specs[..n], firstSet, firstParam) <= OptionRows(specs, firstSet, firstParam)
    decreases |specs| - n
  {
    if n < |specs| {
      OptionRowsPrefix(specs, n + 1, firstSet, firstParam);
      OptionRowsStep(specs, n, firstSet, firstParam);
    } else {
      assert specs[..n] == specs;
    }
  }

  /** A loop that raises partway leaves a prefix of the rows a full run would write: the
      parameters stored are the first ones of `OptionRows`, under the same ids. */
  lemma RowsWrittenArePrefix(specs: seq<ParaSetSpec>, j: nat, firstSet: Id, firstParam: Id)
    requires j < |specs|
    ensures RowsWrittenAt(specs, j, firstSet, firstParam) <= OptionRows(specs, firstSet, firstParam)
  {
    var before := OptionRows(specs[..j], firstSet, firstParam);
    var next := firstParam + |before|;
    var written := GroupRowsWritten(specs[j], firstSet + j, next);
    var group := GroupRows(specs[j].options, firstSet + j, next);
    assert RowsWrittenAt(specs, j, firstSet, firstParam) == before + written;
    OptionRowsStep(specs, j, firstSet, firstParam);
    OptionRowsPrefix(specs, j + 1, firstSet, firstParam);
    GroupRowsWrittenPrefix(specs[j], firstSet + j, next);
    PrefixAppend(before, written, group, OptionRows(specs[..j + 1], firstSet, firstParam), OptionRows(specs, firstSet, firstParam));
  }

  /** What one entry writes before it raises comes first among the rows of all its options. */
  lemma GroupRowsWrittenPrefix(spec: ParaSetSpec, setId: Id, firstId: Id)
    ensures GroupRowsWritten(spec, setId, firstId) <= GroupRows(spec.options, setId, firstId)
  {
  }

  /** The loop over the other images of `add_commodity`: the ones that exist are attached to
      the new commodity. */
  method AttachImages(db: Database, id: Id, imageIds: seq<Id>)
    requires |imageIds| >= 1 && id in db.commodities && db.commodities[id].images == {}
    modifies db`commodities
    ensures db.commodities == old(db.commodities)[id := old(db.commodities[id]).(images := ExtraImages(imageIds, db.files))]
  {
    var commodity := db.commodities[id];
    for i := 1 to |imageIds|
      invariant commodity == old(db.commodities[id]).(images := set k | 1 <= k < i && imageIds[k] in db.files :: imageIds[k])
      invariant db.commodities == old(db.commodities)[id := commodity]
    {
      if imageIds[i] in db.files {
        commodity := commodity.(images := commodity.images + {imageIds[i]});
        db.commodities := db.commodities[id := commodity];
      }
    }
  }

  /** Whether the commodity row fits its columns: the name in 100 characters, the price and
      the discount in `Decimal(8, 2)`, the stock and the trade method in 32 bits. */
  predicate CommodityFits(body: NewCommodity) {
    && FitsChars(body.name, CommodityNameMax) && FitsDecimal82(body.price) && FitsDecimal82(body.discount)
    && FitsInteger(body.total) && FitsInteger(body.tradeMethod)
  }

  /** `add_commodity`, after the body gate and the shop check; the new rows get the ids
      `newId`, `firstSet`.. and `firstParam`.. that auto-increment hands out. A value that does
      not fit its column makes its insertion raise. No transaction wraps the handler, so the
      rows written before it stay. */
  method AddCommodity(db: Database, user: Id, shopId: Id, body: NewCommodity,
                      newId: Id, firstSet: Id, firstParam: Id) returns (r: ApiResult<Id>)
    requires shopId in db.shops
    modifies db`commodities, db`paraSets, db`parameters
    ensures var shop := old(db.shops[shopId]);
      var refused := db.commodities == old(db.commodities) && db.paraSets == old(db.paraSets) && db.parameters == old(db.parameters);
      var ready := OrderApi.ManagesShop(shop, user) && |body.imageIds| > 0 && body.imageIds[0] in db.files && InitialStatusOk(body.status);
      && (!OrderApi.ManagesShop(shop, user) ==> r == Failure(BadRequestError, NoShopRightMsg) && refused)
      && (OrderApi.ManagesShop(shop, user) && |body.imageIds| == 0 ==> r == Uncaught && refused)
      && (OrderApi.ManagesShop(shop, user) && |body.imageIds| > 0 && body.imageIds[0] !in db.files ==> (
            r == Failure(InvalidRequestArgs, ImageMissingMsg) && refused))
      && (OrderApi.ManagesShop(shop, user) && |body.imageIds| > 0 && body.imageIds[0] in db.files && !InitialStatusOk(body.status) ==> (
            r == Failure(InvalidRequestArgs, BadInitialStatusMsg) && refused))
      && (ready && !CommodityFits(body) ==> r == Uncaught && refused)
      && (ready && CommodityFits(body) ==> forall j :: StopsAt(body.paraSets, j) ==> (
            r == Uncaught
            && db.commodities == old(db.commodities)[newId := NewRow(body, newId, shopId)]
            && db.paraSets == SetsWrittenAt(old(db.paraSets), body.paraSets, j, newId, firstSet)
            && db.parameters == Store(old(db.parameters), RowsWrittenAt(body.paraSets, j, firstSet, firstParam))))
      && (ready && CommodityFits(body) && AllGroupsFit(body.paraSets) ==> (
            r == Success(newId)
            && db.commodities == old(db.commodities)[newId := NewRow(body, newId, shopId).(images := ExtraImages(body.imageIds, db.files))]
            && db.paraSets == AddSets(old(db.paraSets), body.paraSets, newId, firstSet)
            && db.parameters == Store(old(db.parameters), OptionRows(body.paraSets, firstSet, firstParam))))
  {
    var shop := db.shops[shopId];
    if !OrderApi.ManagesShop(shop, user) {
      return Failure(BadRequestError, NoShopRightMsg);
    }
    if |body.imageIds| == 0 {
      return Uncaught;
    }
    if body.imageIds[0] !in db.files {
      return Failure(InvalidRequestArgs, ImageMissingMsg);
    }
    if !InitialStatusOk(body.status) {
      return Failure(InvalidRequestArgs, BadInitialStatusMsg);
    }
    if !CommodityFits(body) {
      return Uncaught;
    }
    db.commodities := db.commodities[newId := NewRow(body, newId, shopId)];
    var ok, stop := ExpandParaSets(db, newId, body.paraSets, firstSet, firstParam);
    if !ok {
      FitOrStop(body.paraSets);
      return Uncaught;
    }
    FitOrStop(body.paraSets);
    AttachImages(db, newId, body.imageIds);
    return Success(newId);
  }

  // ---------------------------------------------------------------------------------------
  // Searching

  /** Where a search looks: every commodity, or the commodities of one shop. */
  datatype Scope = Everywhere | InShop(shop: Id)

  /** A search body after `filter_data`; `require_keys` has made sure the keyword is there.
      The price bounds are in cents. */
  datatype SearchBody = SearchBody(
    keyword: string, minPrice: Option<Cents>, maxPrice: Option<Cents>,
    statuses: Option<seq<CommStatus>>, minSale: Option<int>, tradeMethods: Option<seq<int>>,
    haveStock: Option<bool>, orderBy: Option<string>)

  predicate InScope(c: Commodity, scope: Scope) {
    scope.Everywhere? || c.shop == scope.shop
  }

  /** The keyword occurs in the name or the introduction; searching everywhere, also in the
      shop's name. */
  predicate KeywordHit(c: Commodity, shops: map<Id, Shop>, scope: Scope, keyword: string) {
    || Contains(c.name, keyword)
    || (c.introduction.Some? && Contains(c.introduction.value, keyword))
    || (scope.Everywhere? && c.shop in shops && Contains(shops[c.shop].name, keyword))
  }

  /** The price bounds apply to the price after the discount. */
  predicate MinPriceOk(c: Commodity, body: SearchBody) {
    body.minPrice.None? || c.price >= c.discount + body.minPrice.value
  }

  predicate MaxPriceOk(c: Commodity, body: SearchBody) {
    body.maxPrice.None? || c.price <= c.discount + body.maxPrice.value
  }

  predicate StatusOk(c: Commodity, body: SearchBody) {
    body.statuses.None? || c.status in body.statuses.value
  }

  predicate MinSaleOk(c: Commodity, body: SearchBody) {
    body.minSale.None? || c.sale >= body.minSale.value
  }

  predicate MethodOk(c: Commodity, body: SearchBody) {
    body.tradeMethods.None? || c.tradeMethod in body.tradeMethods.value
  }

  /** Only a true `have_stock` asks for stock left. */
  predicate StockOk(c: Commodity, body: SearchBody) {
    body.haveStock != Some(true) || c.total > c.sale
  }

  /** The commodities a search keeps: those passing every filter the body asks for. */
  predicate Selected(c: Commodity, shops: map<Id, Shop>, scope: Scope, body: SearchBody) {
    && InScope(c, scope) && KeywordHit(c, shops, scope, body.keyword)
    && MinPriceOk(c, body) && MaxPriceOk(c, body) && StatusOk(c, body)
    && MinSaleOk(c, body) && MethodOk(c, body) && StockOk(c, body)
  }

  /** The `k`-th filter of the handler, in the order it applies them. */
  predicate Stage(c: Commodity, shops: map<Id, Shop>, scope: Scope, body: SearchBody, k: nat) {
    if k == 1 then InScope(c, scope)
    else if k == 2 then KeywordHit(c, shops, scope, body.keyword)
    else if k == 3 then MinPriceOk(c, body)
    else if k == 4 then MaxPriceOk(c, body)
    else if k == 5 then StatusOk(c, body)
    else if k == 6 then MinSaleOk(c, body)
    else if k == 7 then MethodOk(c, body)
    else StockOk(c, body)
  }

  /** Passing the first `k` filters. */
  predicate Passes(c: Commodity, shops: map<Id, Shop>, scope: Scope, body: SearchBody, k: nat) {
    k == 0 || (Passes(c, shops, scope, body, k - 1) && Stage(c, shops, scope, body, k))
  }

  lemma PassingAllIsSelected(c: Commodity, shops: map<Id, Shop>, scope: Scope, body: SearchBody)
    ensures Passes(c, shops, scope, body, 8) == Selected(c, shops, scope, body)
  {
    assert Passes(c, shops, scope, body, 1) == InScope(c, scope);
    assert Passes(c, shops, scope, body, 2) == (Passes(c, shops, scope, body, 1) && KeywordHit(c, shops, scope, body.keyword));
    assert Passes(c, shops, scope, body, 3) == (Passes(c, shops, scope, body, 2) && MinPriceOk(c, body));
    assert Passes(c, shops, scope, body, 4) == (Passes(c, shops, scope, body, 3) && MaxPriceOk(c, body));
    assert Passes(c, shops, scope, body, 5) == (Passes(c, shops, scope, body, 4) && StatusOk(c, body));
    assert Passes(c, shops, scope, body, 6) == (Passes(c, shops, scope, body, 5) && MinSaleOk(c, body));
    assert Passes(c, shops, scope, body, 7) == (Passes(c, shops, scope, body, 6) && MethodOk(c, body));
    assert Passes(c, shops, scope, body, 8) == (Passes(c, shops, scope, body, 7) && StockOk(c, body));
  }

  /** The rows passing the first `k` filters, in table order. */
  function Kept(rows: seq<Commodity>, shops: map<Id, Shop>, scope: Scope, body: SearchBody, k: nat): seq<Commodity> {
    Where(rows, (c: Commodity) => Passes(c, shops, scope, body, k))
  }

  /** The commodities a search finds, in table order. */
  function Found(rows: seq<Commodity>, shops: map<Id, Shop>, scope: Scope, body: SearchBody): seq<Commodity> {
    Where(rows, (c: Commodity) => Selected(c, shops, scope, body))
  }

  /** Applying filter `k` to the rows passing the first `k - 1` leaves the rows passing the first `k`. */
  lemma Narrow(rows: seq<Commodity>, shops: map<Id, Shop>, scope: Scope, body: SearchBody, k: nat, q: Commodity -> bool)
    requires k >= 1
    requires forall c :: q(c) == Stage(c, shops, scope, body, k)
    ensures Where(Kept(rows, shops, scope, body, k - 1), q) == Kept(rows, shops, scope, body, k)
  {
    WhereWhere(rows, (c: Commodity) => Passes(c, shops, scope, body, k - 1), q, (c: Commodity) => Passes(c, shops, scope, body, k));
  }

  /** A filter the body does not ask for keeps everything, so skipping it changes nothing. */
  lemma Skip(rows: seq<Commodity>, shops: map<Id, Shop>, scope: Scope, body: SearchBody, k: nat)
    requires k >= 1
    requires forall c :: Stage(c, shops, scope, body, k)
    ensures Kept(rows, shops, scope, body, k - 1) == Kept(rows, shops, scope, body, k)
  {
    WhereSame(rows, (c: Commodity) => Passes(c, shops, scope, body, k - 1), (c: Commodity) => Passes(c, shops, scope, body, k));
  }

  /** Passing the eight filters in turn is being selected. */
  lemma KeptAllIsFound(rows: seq<Commodity>, shops: map<Id, Shop>, scope: Scope, body: SearchBody)
    ensures Kept(rows, shops, scope, body, 0) == rows
    ensures Kept(rows, shops, scope, body, 8) == Found(rows, shops, scope, body)
  {
    WhereAll(rows, (c: Commodity) => Passes(c, shops, scope, body, 0));
    forall c: Commodity {
      PassingAllIsSelected(c, shops, scope, body);
    }
    WhereSame(rows, (c: Commodity) => Passes(c, shops, scope, body, 8), (c: Commodity) => Selected(c, shops, scope, body));
  }

  /** The order tokens: "-sale" by default, else the `*`-separated list as sent. */
  function SearchTokens(body: SearchBody): (r: seq<string>)
    ensures |r| >= 1 && (body.orderBy.None? ==> r == ["-sale"])
    ensures body.orderBy.Some? ==> Join(r, '*') == body.orderBy.value
  {
    if body.orderBy.None? then ["-sale"]
    else
      JoinSplit(body.orderBy.value, '*');
      Split(body.orderBy.value, '*')
  }

  /** The answer of a search: the number of commodities found, the number of pages and one page. */
  datatype SearchPage<P> = SearchPage(totCount: nat, pageAll: nat, page: int, data: seq<P>)

  /** Whether the body asks for filter `k`: the shop filter only applies within a shop, the
      keyword filter always, the others when their field is there (`have_stock` when true). */
  predicate Asked(scope: Scope, body: SearchBody, k: nat) {
    if k == 1 then scope.InShop?
    else if k == 2 then true
    else if k == 3 then body.minPrice.Some?
    else if k == 4 then body.maxPrice.Some?
    else if k == 5 then body.statuses.Some?
    else if k == 6 then body.minSale.Some?
    else if k == 7 then body.tradeMethods.Some?
    else body.haveStock == Some(true)
  }

  /** One `if data.get(...) is not None: commodities = commodities.filter(...)` step. */
  method Refine(rows: seq<Commodity>, shops: map<Id, Shop>, scope: Scope, body: SearchBody, k: nat, commodities: seq<Commodity>)
    returns (narrowed: seq<Commodity>)
    requires 1 <= k <= 8 && commodities == Kept(rows, shops, scope, body, k - 1)
    ensures narrowed == Kept(rows, shops, scope, body, k)
    ensures |narrowed| <= |commodities|
  {
    if Asked(scope, body, k) {
      narrowed := Where(commodities, (c: Commodity) => Stage(c, shops, scope, body, k));
      Narrow(rows, shops, scope, body, k, (c: Commodity) => Stage(c, shops, scope, body, k));
    } else {
      narrowed := commodities;
      Skip(rows, shops, scope, body, k);
    }
  }

  /** The filters of the two search handlers, applied one after the other as the handlers
      narrow their query set; the result is what a single filter by `Selected` keeps. */
  method FilterCommodities(rows: seq<Commodity>, shops: map<Id, Shop>, scope: Scope, body: SearchBody)
    returns (commodities: seq<Commodity>)
    ensures commodities == Found(rows, shops, scope, body)
  {
    KeptAllIsFound(rows, shops, scope, body);
    commodities := rows;
    commodities := Refine(rows, shops, scope, body, 1, commodities);
    commodities := Refine(rows, shops, scope, body, 2, commodities);
    commodities := Refine(rows, shops, scope, body, 3, commodities);
    commodities := Refine(rows, shops, scope, body, 4, commodities);
    commodities := Refine(rows, shops, scope, body, 5, commodities);
    commodities := Refine(rows, shops, scope, body, 6, commodities);
    commodities := Refine(rows, shops, scope, body, 7, commodities);
    commodities := Refine(rows, shops, scope, body, 8, commodities);
  }

  /** `user_get_commodity` (everywhere) and `user_get_shop_commodity_list` (in one shop), after
      the body gate and `query_page`. `rows` is the commodity table; `order` is the ORM's
      `order_by`, `None` where a token names no field (an uncaught error, as there is no
      whitelist here); `project` builds one item of the answer. */
  method SearchCommodities<P>(rows: seq<Commodity>, shops: map<Id, Shop>, scope: Scope, body: SearchBody,
                              page: int, pageSize: int, order: (seq<Commodity>, seq<string>) -> Option<seq<Commodity>>,
                              project: Commodity -> P) returns (r: ApiResult<SearchPage<P>>)
    requires page >= 1 && pageSize >= 1
    requires IsReordering(order)
    ensures var found := Found(rows, shops, scope, body);
      && (r.Uncaught? <==> order(found, SearchTokens(body)).None?)
      && (r.Success? ==> (
            && r.data.totCount == |found| && r.data.page == page
            && r.data.pageAll == NumPages(|found|, pageSize)
            && order(found, SearchTokens(body)).Some? && |order(found, SearchTokens(body)).value| == |found|
            && |r.data.data| <= pageSize
            && (page > r.data.pageAll ==> r.data.data == [])
            && (page <= r.data.pageAll ==> r.data.data == MapSeq(project, PageSlice(order(found, SearchTokens(body)).value, page, pageSize)))))
    ensures !r.Failure?
  {
    var commodities := FilterCommodities(rows, shops, scope, body);
    var tokens := if body.orderBy.None? then ["-sale"] else Split(body.orderBy.value, '*');
    var ordered := order(commodities, tokens);
    if ordered.None? {
      return Uncaught;
    }
    var totCount := |ordered.value|;
    assert totCount == |multiset(ordered.value)| == |multiset(commodities)| == |commodities|;
    var pageAll := NumPages(totCount, pageSize);
    var items := [];
    if page <= pageAll {
      items := MapSeq(project, PageSlice(ordered.value, page, pageSize));
    }
    return Success(SearchPage(totCount, pageAll, page, items));
  }

  /** Every commodity a search returns passes all of the body's filters and lies in its scope. */
  lemma SearchFindsOnlySelected(rows: seq<Commodity>, shops: map<Id, Shop>, scope: Scope, body: SearchBody,
                                order: (seq<Commodity>, seq<string>) -> Option<seq<Commodity>>, page: int, pageSize: int, i: int)
    requires IsReordering(order) && pageSize >= 1
    requires var found := Found(rows, shops, scope, body);
      order(found, SearchTokens(body)).Some? && 1 <= page <= NumPages(|order(found, SearchTokens(body)).value|, pageSize)
    requires 0 <= i < |PageSlice(order(Found(rows, shops, scope, body), SearchTokens(body)).value, page, pageSize)|
    ensures var c := PageSlice(order(Found(rows, shops, scope, body), SearchTokens(body)).value, page, pageSize)[i];
      c in rows && Selected(c, shops, scope, body) && InScope(c, scope)
  {
    var found := Found(rows, shops, scope, body);
    var ordered := order(found, SearchTokens(body)).value;
    assert |ordered| == |multiset(ordered)| == |multiset(found)| == |found|;
    PageBounds(|ordered|, page, pageSize);
    var lo := (page - 1) * pageSize;
    var c := ordered[lo + i];
    assert PageSlice(ordered, page, pageSize)[i] == c;
    assert c in multiset(found);
  }

  // ---------------------------------------------------------------------------------------
  // Bookmarks

  function CollectKey(rec: CollectRecord): (Id, Id) {
    (rec.user, rec.commodity)
  }

  /** `user_collect_commodity`, after the commodity check. */
  method CollectCommodity(db: Database, user: Id, commodityId: Id, now: Instant) returns (r: ApiResult<()>)
    modifies db`commCollects
    ensures Marked(old(db.commCollects), CollectKey, (user, commodityId)) ==> (
      r == Failure(InvalidRequestArgs, AlreadyCollectedMsg) && db.commCollects == old(db.commCollects))
    ensures !Marked(old(db.commCollects), CollectKey, (user, commodityId)) ==> (
      r == Success(()) && db.commCollects == old(db.commCollects) + [CollectRecord(user, commodityId, now)])
  {
    if Marked(db.commCollects, CollectKey, (user, commodityId)) {
      return Failure(InvalidRequestArgs, AlreadyCollectedMsg);
    }
    db.commCollects := db.commCollects + [CollectRecord(user, commodityId, now)];
    return Success(());
  }

  /** `user_cancel_collect_commodity`, after the commodity check: removes every matching record. */
  method CancelCollectCommodity(db: Database, user: Id, commodityId: Id) returns (r: ApiResult<()>)
    modifies db`commCollects
    ensures !Marked(old(db.commCollects), CollectKey, (user, commodityId)) ==> (
      r == Failure(InvalidRequestArgs, CollectStateMsg) && db.commCollects == old(db.commCollects))
    ensures Marked(old(db.commCollects), CollectKey, (user, commodityId)) ==> (
      r == Success(()) && db.commCollects == Unmark(old(db.commCollects), CollectKey, (user, commodityId)))
  {
    if !Marked(db.commCollects, CollectKey, (user, commodityId)) {
      return Failure(InvalidRequestArgs, CollectStateMsg);
    }
    db.commCollects := Unmark(db.commCollects, CollectKey, (user, commodityId));
    return Success(());
  }

  /** Bookmarking an unbookmarked commodity and cancelling it again restores the table; after a
      cancel the commodity is no longer bookmarked by that user, and other bookmarks stay. */
  lemma CollectCancelRoundTrip(rows: seq<CollectRecord>, user: Id, commodityId: Id, now: Instant)
    requires !Marked(rows, CollectKey, (user, commodityId))
    ensures Marked(rows + [CollectRecord(user, commodityId, now)], CollectKey, (user, commodityId))
    ensures Unmark(rows + [CollectRecord(user, commodityId, now)], CollectKey, (user, commodityId)) == rows
  {
    MarkSets(rows, CollectKey, CollectRecord(user, commodityId, now));
    MarkThenUnmark(rows, CollectKey, CollectRecord(user, commodityId, now));
  }

  /** Through these two handlers a user bookmarks a commodity at most once. */
  lemma CollectsStayUnique(rows: seq<CollectRecord>, user: Id, commodityId: Id, now: Instant)
    requires UniqueKeys(rows, CollectKey)
    ensures !Marked(rows, CollectKey, (user, commodityId)) ==> UniqueKeys(rows + [CollectRecord(user, commodityId, now)], CollectKey)
    ensures UniqueKeys(Unmark(rows, CollectKey, (user, commodityId)), CollectKey)
    ensures !Marked(Unmark(rows, CollectKey, (user, commodityId)), CollectKey, (user, commodityId))
  {
    if !Marked(rows, CollectKey, (user, commodityId)) {
      MarkKeepsUnique(rows, CollectKey, CollectRecord(user, commodityId, now));
    }
    UnmarkKeepsUnique(rows, CollectKey, (user, commodityId));
    UnmarkClears(rows, CollectKey, (user, commodityId));
  }
}

/**
 * Actuator `EndpointDiscoverer`: finds the endpoint beans and their extensions, indexes their
 * operations by operation key, and builds the exposed endpoints, once.
 */
module EndpointDiscoverers {
  import opened Wrappers
  import opened Strings
  import opened Sequences

  /**
   * An `EndpointId`: the value it prints as, and the form its `equals` and `hashCode` compare.
   * `EndpointId` itself is not part of this model.
   */
  datatype EndpointId = EndpointId(value: string, key: string)

  /** `EndpointId.of` under the context's environment: the id of an annotation value, or nothing when it is refused. */
  type EndpointIdOf = string -> Option<EndpointId>

  /** `OperationKey`: an underlying key and a description of it. */
  datatype OperationKey = OperationKey(key: nat, description: string)

  /** `OperationKey.equals`: only the underlying keys are compared. */
  predicate SameOperationKey(a: OperationKey, b: OperationKey)
  {
    a.key == b.key
  }

  /** `OperationKey.hashCode`: the underlying key's hash. */
  function OperationKeyHash(k: OperationKey, hash: nat -> int): int
  {
    hash(k.key)
  }

  /** Key equality is an equivalence, agrees with the hash, and ignores the description. */
  lemma OperationKeyEquality(a: OperationKey, b: OperationKey, c: OperationKey, hash: nat -> int, description: string)
    ensures SameOperationKey(a, a)
    ensures SameOperationKey(a, b) ==> SameOperationKey(b, a)
    ensures SameOperationKey(a, b) && SameOperationKey(b, c) ==> SameOperationKey(a, c)
    ensures SameOperationKey(a, b) ==> OperationKeyHash(a, hash) == OperationKeyHash(b, hash)
    ensures SameOperationKey(a, a.(description := description))
  {
  }

  /** A discovered operation and the key `createOperationKey` gives it. */
  datatype Operation = Operation(name: string, operationKey: OperationKey)

  function KeyOf(op: Operation): nat
  {
    op.operationKey.key
  }

  /**
   * A `LinkedMultiValueMap<OperationKey, O>`, which hashes keys by their underlying key:
   * the underlying keys in insertion order, each with its list of operations.
   */
  datatype Indexed = Indexed(order: seq<nat>, lists: map<nat, seq<Operation>>)

  /** Keys are listed once each, every listed key has a list, and no list is empty. */
  predicate WellIndexed(ix: Indexed)
  {
    Distinct(ix.order)
    && ix.lists.Keys == (set k | k in ix.order)
    && (forall k | k in ix.lists :: ix.lists[k] != [])
  }

  /** `indexed.get(key)`, with an absent key read as an empty list. */
  function Get(ix: Indexed, key: nat): seq<Operation>
  {
    if key in ix.lists then ix.lists[key] else []
  }

  /** `getLast`: the last element, or null for an empty list. */
  function GetLast(list: seq<Operation>): (r: Option<Operation>)
    ensures r.None? <==> list == []
    ensures r.Some? ==> r.value == list[|list| - 1]
  {
    if list == [] then None else Some(list[|list| - 1])
  }

  /** What `list.remove(getLast(list))` leaves: the first element equal to the last is removed. */
  function WithoutLast(list: seq<Operation>): (r: seq<Operation>)
    ensures list != [] ==> |r| == |list| - 1
    ensures list == [] ==> r == []
  {
    if list == [] then [] else RemoveFirst(list, list[|list| - 1])
  }

  /** With distinct operations, removing the last one drops exactly the final position. */
  lemma {:induction false} WithoutLastDistinct(list: seq<Operation>)
    requires Distinct(list) && list != []
    ensures WithoutLast(list) == list[..|list| - 1]
  {
    var x := list[|list| - 1];
    RemoveFirstOfLast(list, x);
  }

  lemma {:induction false} RemoveFirstOfLast(list: seq<Operation>, x: Operation)
    requires list != [] && list[|list| - 1] == x && forall i | 0 <= i < |list| - 1 :: list[i] != x
    ensures RemoveFirst(list, x) == list[..|list| - 1]
  {
    if |list| > 1 {
      assert list[0] != x;
      var tail := list[1..];
      assert forall i | 0 <= i < |tail| - 1 :: tail[i] == list[i + 1];
      RemoveFirstOfLast(tail, x);
      assert list[..|list| - 1] == [list[0]] + tail[..|tail| - 1];
    }
  }

  /** `indexed.add(key, operation)`: appended to the key's list, the key listed if new. */
  function Add(ix: Indexed, key: nat, op: Operation): Indexed
  {
    Indexed(if key in ix.lists then ix.order else ix.order + [key], ix.lists[key := Get(ix, key) + [op]])
  }

  /**
   * One pass of the loop of `addOperations`: when replacing and the key is met for the first
   * time in this call, the key's current last operation is removed before the operation is added.
   */
  function AddStep(ix: Indexed, op: Operation, replaceLast: bool, replaced: set<nat>): Indexed
  {
    var key := KeyOf(op);
    var last := GetLast(Get(ix, key));
    if replaceLast && key !in replaced && last.Some?
    then Add(ix.(lists := ix.lists[key := RemoveFirst(ix.lists[key], last.value)]), key, op)
    else Add(ix, key, op)
  }

  /** `replacedLast.add(key)`, which only runs when replacing. */
  function Replaced(replaced: set<nat>, op: Operation, replaceLast: bool): set<nat>
  {
    if replaceLast then replaced + {KeyOf(op)} else replaced
  }

  /** The loop of `addOperations` from a state of `indexed` and of `replacedLast`. */
  function AddOps(ix: Indexed, ops: seq<Operation>, replaceLast: bool, replaced: set<nat>): Indexed
    decreases |ops|
  {
    if ops == [] then ix
    else AddOps(AddStep(ix, ops[0], replaceLast, replaced), ops[1..], replaceLast, Replaced(replaced, ops[0], replaceLast))
  }

  /** The operations of `ops` with the given key, in order. */
  function OpsWithKey(ops: seq<Operation>, key: nat): (r: seq<Operation>)
    ensures forall op | op in r :: op in ops && KeyOf(op) == key
    ensures |r| <= |ops|
  {
    if ops == [] then [] else (if KeyOf(ops[0]) == key then [ops[0]] else []) + OpsWithKey(ops[1..], key)
  }

  /**
   * Per key, `addOperations` appends that key's operations in order; when replacing, the
   * list the key held before the call first loses its last operation, once.
   */
  lemma {:induction false} KeyListAfterAddOps(ix: Indexed, ops: seq<Operation>, replaceLast: bool, replaced: set<nat>, key: nat)
    ensures Get(AddOps(ix, ops, replaceLast, replaced), key)
            == if OpsWithKey(ops, key) == [] then Get(ix, key)
               else if replaceLast && key !in replaced then WithoutLast(Get(ix, key)) + OpsWithKey(ops, key)
               else Get(ix, key) + OpsWithKey(ops, key)
    decreases |ops|
  {
    if ops != [] {
      var op := ops[0];
      var ix1 := AddStep(ix, op, replaceLast, replaced);
      var replaced1 := Replaced(replaced, op, replaceLast);
      KeyListAfterAddOps(ix1, ops[1..], replaceLast, replaced1, key);
      if KeyOf(op) == key {
        assert Get(ix1, key) == (if replaceLast && key !in replaced then WithoutLast(Get(ix, key)) else Get(ix, key)) + [op];
        assert OpsWithKey(ops, key) == [op] + OpsWithKey(ops[1..], key);
      } else {
        assert Get(ix1, key) == Get(ix, key);
        assert OpsWithKey(ops, key) == OpsWithKey(ops[1..], key);
      }
    }
  }

  /** `addOperations` keeps the index well formed and only appends keys to its order. */
  lemma {:induction false} AddOpsWellIndexed(ix: Indexed, ops: seq<Operation>, replaceLast: bool, replaced: set<nat>)
    requires WellIndexed(ix)
    ensures WellIndexed(AddOps(ix, ops, replaceLast, replaced))
    decreases |ops|
  {
    if ops != [] {
      var ix1 := AddStep(ix, ops[0], replaceLast, replaced);
      var key := KeyOf(ops[0]);
      assert ix1.lists.Keys == ix.lists.Keys + {key};
      if key !in ix.lists {
        assert ix1.order == ix.order + [key];
        assert forall i, j | 0 <= i < j < |ix1.order| :: ix1.order[i] != ix1.order[j] by {
          forall i, j | 0 <= i < j < |ix1.order| ensures ix1.order[i] != ix1.order[j] {
            if j == |ix.order| {
              assert ix1.order[i] in ix.order;
            }
          }
        }
      }
      AddOpsWellIndexed(ix1, ops[1..], replaceLast, Replaced(replaced, ops[0], replaceLast));
    }
  }

  /** The keys listed more than once-holding, in order: those whose list has more than one operation. */
  function DuplicateKeys(ix: Indexed, order: seq<nat>): (r: seq<nat>)
    ensures r == [] <==> forall i | 0 <= i < |order| :: |Get(ix, order[i])| <= 1
  {
    if order == [] then []
    else (if |Get(ix, order[0])| > 1 then [order[0]] else []) + DuplicateKeys(ix, order[1..])
  }

  /** The last operation of each key, in key order, skipping empty lists. */
  function LastOfEach(ix: Indexed, order: seq<nat>): (r: seq<Operation>)
    ensures (forall i | 0 <= i < |order| :: Get(ix, order[i]) != [])
            ==> |r| == |order| && forall i | 0 <= i < |order| :: r[i] == Get(ix, order[i])[|Get(ix, order[i])| - 1]
  {
    if order == [] then []
    else match GetLast(Get(ix, order[0]))
      case None => LastOfEach(ix, order[1..])
      case Some(op) => [op] + LastOfEach(ix, order[1..])
  }

  /**
   * An `@EndpointExtension` bean as the context lists it: the endpoint type it names and that
   * type's `@Endpoint` id, absent when the type carries no `@Endpoint`.
   */
  datatype ExtensionDefinition = ExtensionDefinition(beanName: string, beanType: string, endpointType: string,
                                                     endpointAnnotatedId: Option<string>, filter: Option<string>,
                                                     operations: seq<Operation>)

  /** An extension bean's type, endpoint, `@FilteredEndpoint` filter and discovered operations. */
  datatype ExtensionBean = ExtensionBean(beanName: string, beanType: string, endpointId: EndpointId,
                                         filter: Option<string>, operations: seq<Operation>)

  /** An `@Endpoint` bean as the context lists it, before its id is checked. */
  datatype EndpointDefinition = EndpointDefinition(beanName: string, beanType: string, annotatedId: string,
                                                   enabledByDefault: bool, filter: Option<string>,
                                                   operations: seq<Operation>)

  /** `EndpointBean`: an endpoint bean and the extensions added to it. */
  datatype EndpointBean = EndpointBean(beanName: string, beanType: string, id: EndpointId, enabledByDefault: bool,
                                       filter: Option<string>, operations: seq<Operation>,
                                       extensions: seq<ExtensionBean>)

  /** A created endpoint: `createEndpoint(bean, id, enabledByDefault, operations)`. */
  datatype Endpoint = Endpoint(id: EndpointId, enabledByDefault: bool, operations: seq<Operation>)

  datatype DiscoveryError =
    | NoEndpointId(beanType: string)
    | InvalidEndpointId(value: string)
    | NoEndpointForExtensionType(endpointType: string)
    | DuplicateEndpointId(id: EndpointId, beanName: string, previousBeanName: string)
    | NoEndpointForExtension(extensionBeanName: string, endpointId: EndpointId)
    | ExtensionNotSupported(endpointBeanName: string, extensionBeanName: string)
    | MultipleExtensions(endpointBeanName: string, extensionBeanNames: seq<string>)
    | DuplicateOperations(keys: seq<nat>, endpointBeanName: string)

  /**
   * The filtering rules: the `isEndpointTypeExposed` / `isExtensionTypeExposed` hooks, the
   * verdict of an instantiated `@FilteredEndpoint` filter class on a filter endpoint (its
   * generic type check included), and the configured `EndpointFilter`s.
   */
  datatype Filtering = Filtering(endpointTypeExposed: string -> bool, extensionTypeExposed: string -> bool,
                                 filterMatches: (string, Endpoint) -> bool, configured: seq<Endpoint -> bool>)

  /** `getFilterEndpoint`'s endpoint: the bean's id and default, with no operations. */
  function FilterEndpoint(bean: EndpointBean): (e: Endpoint)
    ensures e.id == bean.id && e.operations == []
  {
    Endpoint(bean.id, bean.enabledByDefault, [])
  }

  /** `isFilterMatch(Class, bean)`: an unexposed bean type never matches; no filter always does. */
  predicate IsFilterMatch(filter: Option<string>, bean: EndpointBean, f: Filtering)
  {
    f.endpointTypeExposed(bean.beanType) && (filter.None? || f.filterMatches(filter.value, FilterEndpoint(bean)))
  }

  /** Some configured filter rejects the bean's filter endpoint. */
  predicate IsEndpointFiltered(bean: EndpointBean, f: Filtering)
  {
    exists i | 0 <= i < |f.configured| :: !f.configured[i](FilterEndpoint(bean))
  }

  predicate IsEndpointExposed(bean: EndpointBean, f: Filtering)
  {
    IsFilterMatch(bean.filter, bean, f) && !IsEndpointFiltered(bean, f) && f.endpointTypeExposed(bean.beanType)
  }

  predicate IsExtensionExposed(bean: EndpointBean, ext: ExtensionBean, f: Filtering)
  {
    IsFilterMatch(ext.filter, bean, f) && f.extensionTypeExposed(ext.beanType)
  }

  /** `isEndpointFiltered`: searches the configured filters for one that does not match. */
  method EndpointFiltered(bean: EndpointBean, f: Filtering) returns (filtered: bool)
    ensures filtered <==> exists i | 0 <= i < |f.configured| :: !f.configured[i](FilterEndpoint(bean))
  {
    var endpoint := FilterEndpoint(bean);
    for i := 0 to |f.configured|
      invariant forall j | 0 <= j < i :: f.configured[j](endpoint)
    {
      if !f.configured[i](endpoint) {
        return true;
      }
    }
    return false;
  }

  /** A filtered endpoint is never exposed. */
  lemma FilteredNeverExposed(bean: EndpointBean, f: Filtering, i: nat)
    requires i < |f.configured| && !f.configured[i](FilterEndpoint(bean))
    ensures !IsEndpointExposed(bean, f)
  {
  }

  /** `ScopedProxyUtils.isScopedTarget`. */
  predicate IsScopedTarget(beanName: string)
  {
    StartsWith(beanName, "scopedTarget.")
  }

  /**
   * `createEndpointBean`: the `@Endpoint` id must have text, and `EndpointId.of` must accept it;
   * the bean holds the id `EndpointId.of` makes.
   */
  function CreateEndpointBean(idOf: EndpointIdOf, d: EndpointDefinition): (r: Result<EndpointBean, DiscoveryError>)
    ensures r.Success? <==> HasText(Some(d.annotatedId)) && idOf(d.annotatedId).Some?
    ensures !HasText(Some(d.annotatedId)) ==> r == Failure(NoEndpointId(d.beanType))
    ensures HasText(Some(d.annotatedId)) && idOf(d.annotatedId).None? ==> r == Failure(InvalidEndpointId(d.annotatedId))
    ensures r.Success? ==> Some(r.value.id) == idOf(d.annotatedId) && r.value.beanName == d.beanName
                           && r.value.extensions == []
  {
    if !HasText(Some(d.annotatedId)) then Failure(NoEndpointId(d.beanType))
    else match idOf(d.annotatedId)
      case None => Failure(InvalidEndpointId(d.annotatedId))
      case Some(id) => Success(EndpointBean(d.beanName, d.beanType, id, d.enabledByDefault, d.filter, d.operations, []))
  }

  /**
   * `createExtensionBean`: the endpoint type must carry `@Endpoint`, and `EndpointId.of` must
   * accept its id; no text check precedes `EndpointId.of` here.
   */
  function CreateExtensionBean(idOf: EndpointIdOf, d: ExtensionDefinition): (r: Result<ExtensionBean, DiscoveryError>)
    ensures r.Success? <==> d.endpointAnnotatedId.Some? && idOf(d.endpointAnnotatedId.value).Some?
    ensures d.endpointAnnotatedId.None? ==> r == Failure(NoEndpointForExtensionType(d.endpointType))
    ensures d.endpointAnnotatedId.Some? && idOf(d.endpointAnnotatedId.value).None?
            ==> r == Failure(InvalidEndpointId(d.endpointAnnotatedId.value))
    ensures r.Success? ==> Some(r.value.endpointId) == idOf(d.endpointAnnotatedId.value)
                           && r.value.beanName == d.beanName && r.value.operations == d.operations
  {
    match d.endpointAnnotatedId
    case None => Failure(NoEndpointForExtensionType(d.endpointType))
    case Some(annotatedId) =>
      match idOf(annotatedId)
      case None => Failure(InvalidEndpointId(annotatedId))
      case Some(id) => Success(ExtensionBean(d.beanName, d.beanType, id, d.filter, d.operations))
  }

  /** The ids of the beans, in order, as `EndpointId.equals` compares them. */
  function IdsOf(beans: seq<EndpointBean>): seq<string>
  {
    seq(|beans|, i requires 0 <= i < |beans| => beans[i].id.key)
  }

  /** The position of the first bean whose id equals one with the given key. */
  function IndexOfId(beans: seq<EndpointBean>, id: string): (j: nat)
    requires id in IdsOf(beans)
    ensures j < |beans| && beans[j].id.key == id && forall i | 0 <= i < j :: beans[i].id.key != id
  {
    if beans[0].id.key == id then 0
    else
      assert id in IdsOf(beans[1..]) by {
        var i :| 0 <= i < |beans| && IdsOf(beans)[i] == id;
        assert IdsOf(beans[1..])[i - 1] == id;
      }
      1 + IndexOfId(beans[1..], id)
  }

  /** The first position with an id is the only one with nothing before it holding that id. */
  lemma IndexOfIdUnique(beans: seq<EndpointBean>, id: string, k: nat)
    requires k < |beans| && beans[k].id.key == id && forall i | 0 <= i < k :: beans[i].id.key != id
    ensures id in IdsOf(beans) && IndexOfId(beans, id) == k
  {
    assert IdsOf(beans)[k] == id;
  }

  /** `createEndpointBeans`, as the beans kept and the first error met. */
  function EndpointBeansOf(idOf: EndpointIdOf, definitions: seq<EndpointDefinition>): Result<seq<EndpointBean>, DiscoveryError>
  {
    if definitions == [] then Success([])
    else match EndpointBeansOf(idOf, definitions[..|definitions| - 1])
      case Failure(e) => Failure(e)
      case Success(beans) =>
        var d := definitions[|definitions| - 1];
        if IsScopedTarget(d.beanName) then Success(beans)
        else match CreateEndpointBean(idOf, d)
          case Failure(e) => Failure(e)
          case Success(bean) =>
            if bean.id.key in IdsOf(beans)
            then Failure(DuplicateEndpointId(bean.id, bean.beanName, beans[IndexOfId(beans, bean.id.key)].beanName))
            else Success(beans + [bean])
  }

  /** The keys of the ids `EndpointId.of` makes for the non-scoped definitions, in order. */
  function UnscopedIds(idOf: EndpointIdOf, definitions: seq<EndpointDefinition>): seq<string>
  {
    if definitions == [] then []
    else
      var d := definitions[|definitions| - 1];
      UnscopedIds(idOf, definitions[..|definitions| - 1])
      + (if IsScopedTarget(d.beanName) || idOf(d.annotatedId).None? then [] else [idOf(d.annotatedId).value.key])
  }

  /** Every non-scoped definition has an id with text that `EndpointId.of` accepts. */
  predicate AllIdsValid(idOf: EndpointIdOf, definitions: seq<EndpointDefinition>)
  {
    forall i | 0 <= i < |definitions| && !IsScopedTarget(definitions[i].beanName) ::
      HasText(Some(definitions[i].annotatedId)) && idOf(definitions[i].annotatedId).Some?
  }

  lemma DistinctAppend<T>(s: seq<T>, x: T)
    ensures Distinct(s + [x]) <==> Distinct(s) && x !in s
  {
    if Distinct(s) && x !in s {
      forall i, j | 0 <= i < j < |s + [x]| ensures (s + [x])[i] != (s + [x])[j] {
        if j == |s| {
          assert (s + [x])[i] == s[i];
        }
      }
    }
    if Distinct(s + [x]) {
      forall i | 0 <= i < |s| ensures s[i] != x {
        assert (s + [x])[i] == s[i] && (s + [x])[|s|] == x;
      }
      forall i, j | 0 <= i < j < |s| ensures s[i] != s[j] {
        assert (s + [x])[i] == s[i] && (s + [x])[j] == s[j];
      }
    }
  }

  /**
   * `createEndpointBeans` succeeds iff every non-scoped definition has an id with text that
   * `EndpointId.of` accepts and no two of those ids are equal, as `EndpointId.equals` compares
   * them; then it keeps exactly those, in order.
   */
  lemma {:induction false} EndpointBeansSucceed(idOf: EndpointIdOf, definitions: seq<EndpointDefinition>)
    ensures EndpointBeansOf(idOf, definitions).Success?
            <==> AllIdsValid(idOf, definitions) && Distinct(UnscopedIds(idOf, definitions))
    ensures EndpointBeansOf(idOf, definitions).Success?
            ==> IdsOf(EndpointBeansOf(idOf, definitions).value) == UnscopedIds(idOf, definitions)
  {
    if definitions != [] {
      var init := definitions[..|definitions| - 1];
      var d := definitions[|definitions| - 1];
      EndpointBeansSucceed(idOf, init);
      assert forall i | 0 <= i < |init| :: init[i] == definitions[i];
      assert AllIdsValid(idOf, definitions)
             <==> AllIdsValid(idOf, init)
                  && (IsScopedTarget(d.beanName) || (HasText(Some(d.annotatedId)) && idOf(d.annotatedId).Some?));
      if IsScopedTarget(d.beanName) {
        assert UnscopedIds(idOf, definitions) == UnscopedIds(idOf, init);
      } else if CreateEndpointBean(idOf, d).Success? {
        var key := idOf(d.annotatedId).value.key;
        assert UnscopedIds(idOf, definitions) == UnscopedIds(idOf, init) + [key];
        DistinctAppend(UnscopedIds(idOf, init), key);
        if EndpointBeansOf(idOf, init).Success? {
          var beans := EndpointBeansOf(idOf, init).value;
          IdsOfAppend(beans, CreateEndpointBean(idOf, d).value);
        }
      }
    }
  }

  /** Two non-scoped definitions whose ids `EndpointId.equals` finds equal make `createEndpointBeans` fail, whatever their text. */
  lemma EqualIdsRejected(idOf: EndpointIdOf, definitions: seq<EndpointDefinition>, i: nat, j: nat)
    requires i < j < |definitions|
    requires !IsScopedTarget(definitions[i].beanName) && !IsScopedTarget(definitions[j].beanName)
    requires idOf(definitions[i].annotatedId).Some? && idOf(definitions[j].annotatedId).Some?
    requires idOf(definitions[i].annotatedId).value.key == idOf(definitions[j].annotatedId).value.key
    ensures EndpointBeansOf(idOf, definitions).Failure?
  {
    EndpointBeansSucceed(idOf, definitions);
    if EndpointBeansOf(idOf, definitions).Success? {
      UnscopedIdsPosition(idOf, definitions, i, j);
    }
  }

  /** With every id accepted, two non-scoped definitions give two positions of the id keys. */
  lemma {:induction false} UnscopedIdsPosition(idOf: EndpointIdOf, definitions: seq<EndpointDefinition>, i: nat, j: nat)
    requires i < j < |definitions| && AllIdsValid(idOf, definitions)
    requires !IsScopedTarget(definitions[i].beanName) && !IsScopedTarget(definitions[j].beanName)
    ensures exists p, q | 0 <= p < q < |UnscopedIds(idOf, definitions)| ::
              UnscopedIds(idOf, definitions)[p] == idOf(definitions[i].annotatedId).value.key
              && UnscopedIds(idOf, definitions)[q] == idOf(definitions[j].annotatedId).value.key
  {
    var init := definitions[..|definitions| - 1];
    assert forall k | 0 <= k < |init| :: init[k] == definitions[k];
    assert AllIdsValid(idOf, init);
    var ids := UnscopedIds(idOf, definitions);
    var before := UnscopedIds(idOf, init);
    if j < |definitions| - 1 {
      UnscopedIdsPosition(idOf, init, i, j);
      var p, q :| 0 <= p < q < |before| && before[p] == idOf(init[i].annotatedId).value.key
                                          && before[q] == idOf(init[j].annotatedId).value.key;
      assert ids[p] == before[p] && ids[q] == before[q];
    } else {
      UnscopedIdIn(idOf, init, i);
      var p :| 0 <= p < |before| && before[p] == idOf(init[i].annotatedId).value.key;
      assert ids == before + [idOf(definitions[j].annotatedId).value.key];
      assert ids[p] == before[p] && ids[|before|] == idOf(definitions[j].annotatedId).value.key;
    }
  }

  /** With every id accepted, each non-scoped definition's id key is among the id keys. */
  lemma {:induction false} UnscopedIdIn(idOf: EndpointIdOf, definitions: seq<EndpointDefinition>, i: nat)
    requires i < |definitions| && AllIdsValid(idOf, definitions) && !IsScopedTarget(definitions[i].beanName)
    ensures exists p | 0 <= p < |UnscopedIds(idOf, definitions)| ::
              UnscopedIds(idOf, definitions)[p] == idOf(definitions[i].annotatedId).value.key
  {
    var init := definitions[..|definitions| - 1];
    assert forall k | 0 <= k < |init| :: init[k] == definitions[k];
    assert AllIdsValid(idOf, init);
    var ids := UnscopedIds(idOf, definitions);
    var before := UnscopedIds(idOf, init);
    if i < |definitions| - 1 {
      UnscopedIdIn(idOf, init, i);
      var p :| 0 <= p < |before| && before[p] == idOf(init[i].annotatedId).value.key;
      assert ids[p] == before[p];
    } else {
      assert ids[|before|] == idOf(definitions[i].annotatedId).value.key;
    }
  }

  /** A failure met on a prefix of the definitions is the failure of the whole. */
  lemma {:induction false} EndpointBeansFailurePersists(idOf: EndpointIdOf, definitions: seq<EndpointDefinition>, i: nat)
    requires i <= |definitions| && EndpointBeansOf(idOf, definitions[..i]).Failure?
    ensures EndpointBeansOf(idOf, definitions) == EndpointBeansOf(idOf, definitions[..i])
    decreases |definitions| - i
  {
    if i < |definitions| {
      assert definitions[..i + 1][..i] == definitions[..i];
      EndpointBeansFailurePersists(idOf, definitions, i + 1);
    } else {
      assert definitions[..i] == definitions;
    }
  }

  /** `createEndpointBeans`: the endpoint beans by id, rejecting a second bean with the same id. */
  method CreateEndpointBeans(idOf: EndpointIdOf, definitions: seq<EndpointDefinition>)
    returns (r: Result<seq<EndpointBean>, DiscoveryError>)
    ensures r == EndpointBeansOf(idOf, definitions)
  {
    // A `LinkedHashMap<EndpointId, EndpointBean>` finds an id by its key.
    var byId: map<string, EndpointBean> := map[];
    var values: seq<EndpointBean> := [];
    for i := 0 to |definitions|
      invariant EndpointBeansOf(idOf, definitions[..i]) == Success(values)
      invariant forall id :: id in byId <==> id in IdsOf(values)
      invariant forall id | id in byId :: byId[id] == values[IndexOfId(values, id)]
    {
      assert definitions[..i + 1][..i] == definitions[..i];
      var d := definitions[i];
      if !IsScopedTarget(d.beanName) {
        var created := CreateEndpointBean(idOf, d);
        if created.Failure? {
          EndpointBeansFailurePersists(idOf, definitions, i + 1);
          return Failure(created.error);
        }
        var bean := created.value;
        if bean.id.key in byId {
          EndpointBeansFailurePersists(idOf, definitions, i + 1);
          return Failure(DuplicateEndpointId(bean.id, bean.beanName, byId[bean.id.key].beanName));
        }
        IndexOfIdAppend(values, bean);
        byId := byId[bean.id.key := bean];
        values := values + [bean];
      }
    }
    assert definitions[..|definitions|] == definitions;
    return Success(values);
  }

  lemma IndexOfIdAppend(beans: seq<EndpointBean>, bean: EndpointBean)
    requires bean.id.key !in IdsOf(beans)
    ensures IdsOf(beans + [bean]) == IdsOf(beans) + [bean.id.key]
    ensures forall id | id in IdsOf(beans) :: id in IdsOf(beans + [bean]) && IndexOfId(beans + [bean], id) == IndexOfId(beans, id)
    ensures bean.id.key in IdsOf(beans + [bean]) && IndexOfId(beans + [bean], bean.id.key) == |beans|
  {
    IdsOfAppend(beans, bean);
    forall id | id in IdsOf(beans) ensures id in IdsOf(beans + [bean]) && IndexOfId(beans + [bean], id) == IndexOfId(beans, id) {
      IndexOfIdPrefix(beans, bean, id);
    }
    IndexOfIdLast(beans, bean);
  }

  /** The ids of the beans with one appended are theirs with its id appended. */
  lemma IdsOfAppend(beans: seq<EndpointBean>, bean: EndpointBean)
    ensures IdsOf(beans + [bean]) == IdsOf(beans) + [bean.id.key]
  {
    var extended := beans + [bean];
    forall i | 0 <= i < |extended| ensures IdsOf(extended)[i] == (IdsOf(beans) + [bean.id.key])[i] {
      if i < |beans| {
        assert extended[i] == beans[i];
      }
    }
  }

  /** Appending a bean keeps the first position of an id already present. */
  lemma IndexOfIdPrefix(beans: seq<EndpointBean>, bean: EndpointBean, id: string)
    requires id in IdsOf(beans)
    ensures id in IdsOf(beans + [bean]) && IndexOfId(beans + [bean], id) == IndexOfId(beans, id)
  {
    var j := IndexOfId(beans, id);
    var extended := beans + [bean];
    forall i | 0 <= i <= j ensures extended[i] == beans[i] {
    }
    IndexOfIdUnique(extended, id, j);
  }

  /** An appended bean with a new id is the first with that id. */
  lemma IndexOfIdLast(beans: seq<EndpointBean>, bean: EndpointBean)
    requires bean.id.key !in IdsOf(beans)
    ensures bean.id.key in IdsOf(beans + [bean]) && IndexOfId(beans + [bean], bean.id.key) == |beans|
  {
    var extended := beans + [bean];
    forall i | 0 <= i < |beans| ensures extended[i].id.key != bean.id.key {
      assert IdsOf(beans)[i] == beans[i].id.key;
      assert extended[i] == beans[i];
    }
    IndexOfIdUnique(extended, bean.id.key, |beans|);
  }

  /** The extension beans of `extensions` that are added to `bean`: those naming an id equal to its own, when exposed. */
  function ExtensionsFor(idOf: EndpointIdOf, bean: EndpointBean, extensions: seq<ExtensionDefinition>, f: Filtering)
    : seq<ExtensionBean>
  {
    if extensions == [] then []
    else
      ExtensionsFor(idOf, bean, extensions[..|extensions| - 1], f)
      + match CreateExtensionBean(idOf, extensions[|extensions| - 1])
        case Failure(_) => []
        case Success(ext) => if ext.endpointId.key == bean.id.key && IsExtensionExposed(bean, ext, f) then [ext] else []
  }

  /** `addExtensionBeans`, on the beans as values: each extension bean is created, then found its endpoint bean by id. */
  function ExtendedBeans(idOf: EndpointIdOf, beans: seq<EndpointBean>, extensions: seq<ExtensionDefinition>, f: Filtering)
    : Result<seq<EndpointBean>, DiscoveryError>
  {
    if extensions == [] then Success(beans)
    else match ExtendedBeans(idOf, beans, extensions[..|extensions| - 1], f)
      case Failure(e) => Failure(e)
      case Success(current) =>
        match CreateExtensionBean(idOf, extensions[|extensions| - 1])
        case Failure(e) => Failure(e)
        case Success(ext) =>
          if ext.endpointId.key !in IdsOf(current) then Failure(NoEndpointForExtension(ext.beanName, ext.endpointId))
          else ExtendBean(current, IndexOfId(current, ext.endpointId.key), ext, f)
  }

  /** `addExtensionBean`: an exposed extension needs an exposed or filtered endpoint. */
  function ExtendBean(beans: seq<EndpointBean>, j: nat, ext: ExtensionBean, f: Filtering)
    : (r: Result<seq<EndpointBean>, DiscoveryError>)
    requires j < |beans|
    ensures r.Success? ==> |r.value| == |beans| && IdsOf(r.value) == IdsOf(beans)
  {
    var bean := beans[j];
    if !IsExtensionExposed(bean, ext, f) then Success(beans)
    else if !(IsEndpointExposed(bean, f) || IsEndpointFiltered(bean, f))
    then Failure(ExtensionNotSupported(bean.beanName, ext.beanName))
    else Success(beans[j := bean.(extensions := bean.extensions + [ext])])
  }

  /**
   * An extension whose bean cannot be created, or whose id equals no endpoint bean's, makes
   * the whole step fail.
   */
  lemma {:induction false} ExtensionWithoutEndpointRejected(idOf: EndpointIdOf, beans: seq<EndpointBean>,
                                                          extensions: seq<ExtensionDefinition>, f: Filtering, k: nat)
    requires k < |extensions|
    requires CreateExtensionBean(idOf, extensions[k]).Success? ==>
               CreateExtensionBean(idOf, extensions[k]).value.endpointId.key !in IdsOf(beans)
    ensures ExtendedBeans(idOf, beans, extensions, f).Failure?
  {
    ExtendedKeepsIds(idOf, beans, extensions[..k], f);
    assert extensions[..k + 1][..k] == extensions[..k];
    ExtendedFailurePersists(idOf, beans, extensions, f, k + 1);
  }

  lemma {:induction false} ExtendedKeepsIds(idOf: EndpointIdOf, beans: seq<EndpointBean>,
                                          extensions: seq<ExtensionDefinition>, f: Filtering)
    ensures ExtendedBeans(idOf, beans, extensions, f).Success?
            ==> IdsOf(ExtendedBeans(idOf, beans, extensions, f).value) == IdsOf(beans)
  {
    if extensions != [] {
      ExtendedKeepsIds(idOf, beans, extensions[..|extensions| - 1], f);
    }
  }

  lemma {:induction false} ExtendedFailurePersists(idOf: EndpointIdOf, beans: seq<EndpointBean>,
                                                 extensions: seq<ExtensionDefinition>, f: Filtering, i: nat)
    requires i <= |extensions| && ExtendedBeans(idOf, beans, extensions[..i], f).Failure?
    ensures ExtendedBeans(idOf, beans, extensions, f) == ExtendedBeans(idOf, beans, extensions[..i], f)
    decreases |extensions| - i
  {
    if i < |extensions| {
      assert extensions[..i + 1][..i] == extensions[..i];
      ExtendedFailurePersists(idOf, beans, extensions, f, i + 1);
    } else {
      assert extensions[..i] == extensions;
    }
  }

  /**
   * When `addExtensionBeans` succeeds on beans with distinct ids, each bean gains exactly
   * its own exposed extensions, in order, and nothing else about it changes.
   */
  lemma {:induction false} ExtendedBeansContents(idOf: EndpointIdOf, beans: seq<EndpointBean>,
                                               extensions: seq<ExtensionDefinition>, f: Filtering, j: nat)
    requires Distinct(IdsOf(beans)) && j < |beans| && ExtendedBeans(idOf, beans, extensions, f).Success?
    ensures |ExtendedBeans(idOf, beans, extensions, f).value| == |beans|
    ensures ExtendedBeans(idOf, beans, extensions, f).value[j].extensions
            == beans[j].extensions + ExtensionsFor(idOf, beans[j], extensions, f)
    ensures ExtendedBeans(idOf, beans, extensions, f).value[j]
            == beans[j].(extensions := ExtendedBeans(idOf, beans, extensions, f).value[j].extensions)
  {
    ExtendedKeepsIds(idOf, beans, extensions, f);
    if extensions != [] {
      var init := extensions[..|extensions| - 1];
      ExtendedBeansContents(idOf, beans, init, f, j);
      ExtendedKeepsIds(idOf, beans, init, f);
      var current := ExtendedBeans(idOf, beans, init, f).value;
      var ext := CreateExtensionBean(idOf, extensions[|extensions| - 1]).value;
      var k := IndexOfId(current, ext.endpointId.key);
      assert IdsOf(current)[k] == IdsOf(beans)[k];
      ExtendBeanAt(current, k, ext, f, j);
      SameFilteringAfterExtending(beans[j], current[j], ext, f);
      if j != k {
        DistinctIds(beans, j, k);
      }
    }
  }

  lemma DistinctIds(beans: seq<EndpointBean>, j: nat, k: nat)
    requires Distinct(IdsOf(beans)) && j < |beans| && k < |beans| && j != k
    ensures beans[j].id.key != beans[k].id.key
  {
    assert IdsOf(beans)[j] != IdsOf(beans)[k];
  }

  /** `addExtensionBean` changes at most the bean it is given, and only its extensions. */
  lemma ExtendBeanAt(beans: seq<EndpointBean>, k: nat, ext: ExtensionBean, f: Filtering, j: nat)
    requires k < |beans| && j < |beans| && ExtendBean(beans, k, ext, f).Success?
    ensures ExtendBean(beans, k, ext, f).value[j]
            == if j == k && IsExtensionExposed(beans[k], ext, f) then beans[j].(extensions := beans[j].extensions + [ext])
               else beans[j]
  {
  }

  /** Whether an extension is exposed for a bean does not depend on the bean's extensions. */
  lemma SameFilteringAfterExtending(bean: EndpointBean, extended: EndpointBean, ext: ExtensionBean, f: Filtering)
    requires extended == bean.(extensions := extended.extensions)
    ensures IsExtensionExposed(extended, ext, f) == IsExtensionExposed(bean, ext, f)
    ensures IsEndpointExposed(extended, f) == IsEndpointExposed(bean, f)
  {
    assert FilterEndpoint(extended) == FilterEndpoint(bean);
  }

  /** `addExtensionBeans`: each extension is added to the endpoint bean with its endpoint id. */
  method AddExtensionBeans(idOf: EndpointIdOf, beans: seq<EndpointBean>, extensions: seq<ExtensionDefinition>,
                           f: Filtering)
    returns (r: Result<seq<EndpointBean>, DiscoveryError>)
    ensures r == ExtendedBeans(idOf, beans, extensions, f)
  {
    var current := beans;
    for i := 0 to |extensions|
      invariant ExtendedBeans(idOf, beans, extensions[..i], f) == Success(current)
    {
      assert extensions[..i + 1][..i] == extensions[..i];
      var created := CreateExtensionBean(idOf, extensions[i]);
      if created.Failure? {
        ExtendedFailurePersists(idOf, beans, extensions, f, i + 1);
        return Failure(created.error);
      }
      var ext := created.value;
      if ext.endpointId.key !in IdsOf(current) {
        ExtendedFailurePersists(idOf, beans, extensions, f, i + 1);
        return Failure(NoEndpointForExtension(ext.beanName, ext.endpointId));
      }
      var j := IndexOfId(current, ext.endpointId.key);
      var bean := current[j];
      if IsExtensionExposed(bean, ext, f) {
        var filtered := EndpointFiltered(bean, f);
        if !(IsEndpointExposed(bean, f) || filtered) {
          ExtendedFailurePersists(idOf, beans, extensions, f, i + 1);
          return Failure(ExtensionNotSupported(bean.beanName, ext.beanName));
        }
        current := current[j := bean.(extensions := bean.extensions + [ext])];
      }
    }
    assert extensions[..|extensions|] == extensions;
    return Success(current);
  }

  /** `convertToEndpoint`, as the operations of the bean and of its single extension merged by key. */
  function MergedOperations(bean: EndpointBean): Indexed
    requires |bean.extensions| <= 1
  {
    var ofBean := AddOps(Indexed([], map[]), bean.operations, false, {});
    if bean.extensions == [] then ofBean else AddOps(ofBean, bean.extensions[0].operations, true, {})
  }

  function ExtensionNames(extensions: seq<ExtensionBean>): seq<string>
  {
    if extensions == [] then [] else [extensions[0].beanName] + ExtensionNames(extensions[1..])
  }

  /** `convertToEndpoint`. */
  function EndpointOf(bean: EndpointBean): Result<Endpoint, DiscoveryError>
  {
    if |bean.extensions| > 1 then Failure(MultipleExtensions(bean.beanName, ExtensionNames(bean.extensions)))
    else
      var indexed := MergedOperations(bean);
      var duplicates := DuplicateKeys(indexed, indexed.order);
      if duplicates != [] then Failure(DuplicateOperations(duplicates, bean.beanName))
      else Success(Endpoint(bean.id, bean.enabledByDefault, LastOfEach(indexed, indexed.order)))
  }

  /** An endpoint with more than one extension is rejected. */
  lemma MultipleExtensionsRejected(bean: EndpointBean)
    requires |bean.extensions| > 1
    ensures EndpointOf(bean) == Failure(MultipleExtensions(bean.beanName, ExtensionNames(bean.extensions)))
  {
  }

  /**
   * Per key, the merged list holds the bean's operations with that key, or, when the extension
   * has some, the bean's minus its last one followed by the extension's.
   */
  lemma MergedKeyList(bean: EndpointBean, key: nat)
    requires |bean.extensions| <= 1
    ensures var ofBean := OpsWithKey(bean.operations, key);
            var ofExtension := if bean.extensions == [] then [] else OpsWithKey(bean.extensions[0].operations, key);
            Get(MergedOperations(bean), key) == if ofExtension == [] then ofBean else WithoutLast(ofBean) + ofExtension
  {
    var empty := Indexed([], map[]);
    var ofBean := AddOps(empty, bean.operations, false, {});
    var beanOps := OpsWithKey(bean.operations, key);
    KeyListAfterAddOps(empty, bean.operations, false, {}, key);
    assert Get(empty, key) == [];
    assert Get(ofBean, key) == beanOps by {
      if beanOps != [] {
        assert Get(ofBean, key) == [] + beanOps;
      }
    }
    if bean.extensions != [] {
      KeyListAfterAddOps(ofBean, bean.extensions[0].operations, true, {}, key);
    }
  }

  lemma MergedWellIndexed(bean: EndpointBean)
    requires |bean.extensions| <= 1
    ensures WellIndexed(MergedOperations(bean))
  {
    var empty := Indexed([], map[]);
    AddOpsWellIndexed(empty, bean.operations, false, {});
    if bean.extensions != [] {
      AddOpsWellIndexed(AddOps(empty, bean.operations, false, {}), bean.extensions[0].operations, true, {});
    }
  }

  /** A converted endpoint has exactly one operation per key of the merged index, in key order. */
  lemma ConvertedOperations(bean: EndpointBean)
    requires EndpointOf(bean).Success?
    ensures |bean.extensions| <= 1
    ensures var merged := MergedOperations(bean);
            var ops := EndpointOf(bean).value.operations;
            |ops| == |merged.order| && forall i | 0 <= i < |merged.order| :: Get(merged, merged.order[i]) == [ops[i]]
  {
    EndpointOfSucceeds(bean);
    var merged := MergedOperations(bean);
    MergedWellIndexed(bean);
    forall i | 0 <= i < |merged.order| ensures Get(merged, merged.order[i]) != [] {
      assert merged.order[i] in merged.lists;
    }
    SingletonLists(merged, merged.order);
  }

  /** A bean converts only without duplicate keys, to the last operation of each key. */
  lemma EndpointOfSucceeds(bean: EndpointBean)
    requires EndpointOf(bean).Success?
    ensures |bean.extensions| <= 1
    ensures var merged := MergedOperations(bean);
            DuplicateKeys(merged, merged.order) == []
            && EndpointOf(bean).value.operations == LastOfEach(merged, merged.order)
  {
  }

  /** Without duplicates and empty lists, each key's list is its last operation alone. */
  lemma SingletonLists(ix: Indexed, order: seq<nat>)
    requires forall i | 0 <= i < |order| :: Get(ix, order[i]) != []
    requires DuplicateKeys(ix, order) == []
    ensures |LastOfEach(ix, order)| == |order|
    ensures forall i | 0 <= i < |order| :: Get(ix, order[i]) == [LastOfEach(ix, order)[i]]
  {
    var r := LastOfEach(ix, order);
    forall i | 0 <= i < |order| ensures Get(ix, order[i]) == [r[i]] {
      var list := Get(ix, order[i]);
      assert |list| == 1;
    }
  }

  /** `convertToEndpoints`, on the exposed beans in order. */
  function EndpointsOf(beans: seq<EndpointBean>, f: Filtering): Result<seq<Endpoint>, DiscoveryError>
  {
    if beans == [] then Success([])
    else match EndpointsOf(beans[..|beans| - 1], f)
      case Failure(e) => Failure(e)
      case Success(endpoints) =>
        var bean := beans[|beans| - 1];
        if !IsEndpointExposed(bean, f) then Success(endpoints)
        else match EndpointOf(bean)
          case Failure(e) => Failure(e)
          case Success(endpoint) => Success(endpoints + [endpoint])
  }

  lemma {:induction false} EndpointsFailurePersists(beans: seq<EndpointBean>, f: Filtering, i: nat)
    requires i <= |beans| && EndpointsOf(beans[..i], f).Failure?
    ensures EndpointsOf(beans, f) == EndpointsOf(beans[..i], f)
    decreases |beans| - i
  {
    if i < |beans| {
      assert beans[..i + 1][..i] == beans[..i];
      EndpointsFailurePersists(beans, f, i + 1);
    } else {
      assert beans[..i] == beans;
    }
  }

  /** The exposed beans, in order. */
  function ExposedBeans(beans: seq<EndpointBean>, f: Filtering): seq<EndpointBean>
  {
    if beans == [] then []
    else
      var bean := beans[|beans| - 1];
      ExposedBeans(beans[..|beans| - 1], f) + (if IsEndpointExposed(bean, f) then [bean] else [])
  }

  /**
   * `convertToEndpoints` keeps exactly the exposed beans: it succeeds exactly when each of them
   * converts, and then answers their endpoints in bean order; no filtered bean yields one.
   */
  lemma {:induction false} EndpointsOfExposed(beans: seq<EndpointBean>, f: Filtering)
    ensures EndpointsOf(beans, f).Success?
            <==> forall i | 0 <= i < |ExposedBeans(beans, f)| :: EndpointOf(ExposedBeans(beans, f)[i]).Success?
    ensures EndpointsOf(beans, f).Success? ==>
              |EndpointsOf(beans, f).value| == |ExposedBeans(beans, f)| <= |beans|
              && forall i | 0 <= i < |ExposedBeans(beans, f)| ::
                   EndpointsOf(beans, f).value[i] == EndpointOf(ExposedBeans(beans, f)[i]).value
    ensures forall b | b in ExposedBeans(beans, f) :: b in beans && IsEndpointExposed(b, f)
  {
    if beans != [] {
      var init := beans[..|beans| - 1];
      var bean := beans[|beans| - 1];
      EndpointsOfExposed(init, f);
      var exposed := ExposedBeans(init, f);
      assert forall b | b in init :: b in beans;
      assert bean in beans;
      if IsEndpointExposed(bean, f) {
        assert ExposedBeans(beans, f) == exposed + [bean];
        assert forall i | 0 <= i < |exposed| :: ExposedBeans(beans, f)[i] == exposed[i];
        assert ExposedBeans(beans, f)[|exposed|] == bean;
      } else {
        assert ExposedBeans(beans, f) == exposed;
      }
    }
  }

  /** `addOperations`: indexes the operations of one bean, replacing last entries for an extension. */
  method AddOperations(indexed: Indexed, operations: seq<Operation>, replaceLast: bool) returns (r: Indexed)
    ensures r == AddOps(indexed, operations, replaceLast, {})
  {
    var replacedLast: set<nat> := {};
    r := indexed;
    for i := 0 to |operations|
      invariant AddOps(r, operations[i..], replaceLast, replacedLast) == AddOps(indexed, operations, replaceLast, {})
    {
      var operation := operations[i];
      assert operations[i..][1..] == operations[i + 1..];
      var key := KeyOf(operation);
      var last := GetLast(Get(r, key));
      var replacing := replaceLast && key !in replacedLast && last.Some?;
      if replaceLast {
        replacedLast := replacedLast + {key};
      }
      if replacing {
        r := r.(lists := r.lists[key := RemoveFirst(r.lists[key], last.value)]);
      }
      r := Add(r, key, operation);
    }
  }

  /** `convertToEndpoint`: the bean's operations, then its extension's, merged and checked for duplicates. */
  method ConvertToEndpoint(bean: EndpointBean) returns (r: Result<Endpoint, DiscoveryError>)
    ensures r == EndpointOf(bean)
  {
    var indexed := AddOperations(Indexed([], map[]), bean.operations, false);
    if |bean.extensions| > 1 {
      return Failure(MultipleExtensions(bean.beanName, ExtensionNames(bean.extensions)));
    }
    for i := 0 to |bean.extensions|
      invariant indexed == if i == 0 then AddOps(Indexed([], map[]), bean.operations, false, {}) else MergedOperations(bean)
    {
      indexed := AddOperations(indexed, bean.extensions[i].operations, true);
    }
    var duplicates := DuplicateKeys(indexed, indexed.order);
    if duplicates != [] {
      return Failure(DuplicateOperations(duplicates, bean.beanName));
    }
    return Success(Endpoint(bean.id, bean.enabledByDefault, LastOfEach(indexed, indexed.order)));
  }

  /** `convertToEndpoints`: an endpoint for each exposed bean, in order. */
  method ConvertToEndpoints(beans: seq<EndpointBean>, f: Filtering) returns (r: Result<seq<Endpoint>, DiscoveryError>)
    ensures r == EndpointsOf(beans, f)
  {
    var endpoints: seq<Endpoint> := [];
    for i := 0 to |beans|
      invariant EndpointsOf(beans[..i], f) == Success(endpoints)
    {
      assert beans[..i + 1][..i] == beans[..i];
      if IsEndpointExposed(beans[i], f) {
        var endpoint := ConvertToEndpoint(beans[i]);
        if endpoint.Failure? {
          EndpointsFailurePersists(beans, f, i + 1);
          return Failure(endpoint.error);
        }
        endpoints := endpoints + [endpoint.value];
      }
    }
    assert beans[..|beans|] == beans;
    return Success(endpoints);
  }

  /** `discoverEndpoints`: endpoint beans, then their extensions, then the exposed endpoints. */
  function Discovery(idOf: EndpointIdOf, definitions: seq<EndpointDefinition>, extensions: seq<ExtensionDefinition>,
                     f: Filtering)
    : Result<seq<Endpoint>, DiscoveryError>
  {
    match EndpointBeansOf(idOf, definitions)
    case Failure(e) => Failure(e)
    case Success(beans) =>
      match ExtendedBeans(idOf, beans, extensions, f)
      case Failure(e) => Failure(e)
      case Success(extended) => EndpointsOf(extended, f)
  }

  /** The discoverer's caches: the endpoints once discovered, and the filter endpoint of each bean. */
  class EndpointDiscoverer {
    /** `EndpointId.of` under the application context's environment. */
    const idOf: EndpointIdOf
    const definitions: seq<EndpointDefinition>
    const extensionBeans: seq<ExtensionDefinition>
    const filtering: Filtering
    var endpoints: Option<seq<Endpoint>>
    var filterEndpoints: map<EndpointBean, Endpoint>
    /** How often discovery has run. */
    var discoveries: nat

    constructor (idOf: EndpointIdOf, definitions: seq<EndpointDefinition>, extensionBeans: seq<ExtensionDefinition>,
                 filtering: Filtering)
      ensures this.idOf == idOf && this.definitions == definitions && this.extensionBeans == extensionBeans
      ensures this.filtering == filtering
      ensures endpoints.None? && filterEndpoints == map[] && discoveries == 0
    {
      this.idOf := idOf;
      this.definitions := definitions;
      this.extensionBeans := extensionBeans;
      this.filtering := filtering;
      endpoints := None;
      filterEndpoints := map[];
      discoveries := 0;
    }

    /** `getEndpoints`: discovers on the first call that has no endpoints yet, and caches a success. */
    method GetEndpoints() returns (r: Result<seq<Endpoint>, DiscoveryError>)
      modifies this
      ensures old(endpoints).Some? ==> r == Success(old(endpoints).value) && endpoints == old(endpoints)
                                       && discoveries == old(discoveries)
      ensures old(endpoints).None? ==> r == Discovery(idOf, definitions, extensionBeans, filtering)
                                       && discoveries == old(discoveries) + 1
                                       && endpoints == (if r.Success? then Some(r.value) else None)
      ensures forall b | b in old(filterEndpoints) :: b in filterEndpoints && filterEndpoints[b] == old(filterEndpoints)[b]
      ensures forall b | b in filterEndpoints && b !in old(filterEndpoints) :: filterEndpoints[b] == FilterEndpoint(b)
    {
      if endpoints.None? {
        discoveries := discoveries + 1;
        var discovered := DiscoverEndpoints();
        if discovered.Failure? {
          return discovered;
        }
        endpoints := Some(discovered.value);
      }
      return Success(endpoints.value);
    }

    method DiscoverEndpoints() returns (r: Result<seq<Endpoint>, DiscoveryError>)
      ensures r == Discovery(idOf, definitions, extensionBeans, filtering)
    {
      var beans := CreateEndpointBeans(idOf, definitions);
      if beans.Failure? {
        return Failure(beans.error);
      }
      var extended := AddExtensionBeans(idOf, beans.value, extensionBeans, filtering);
      if extended.Failure? {
        return Failure(extended.error);
      }
      r := ConvertToEndpoints(extended.value, filtering);
    }

    /** `getFilterEndpoint`: created on first use for a bean, then taken from the cache. */
    method GetFilterEndpoint(bean: EndpointBean) returns (r: Endpoint)
      modifies this
      ensures bean in old(filterEndpoints) ==> r == old(filterEndpoints)[bean] && filterEndpoints == old(filterEndpoints)
      ensures bean !in old(filterEndpoints) ==> r == FilterEndpoint(bean) && filterEndpoints == old(filterEndpoints)[bean := r]
      ensures endpoints == old(endpoints) && discoveries == old(discoveries)
    {
      if bean !in filterEndpoints {
        filterEndpoints := filterEndpoints[bean := FilterEndpoint(bean)];
      }
      r := filterEndpoints[bean];
    }
  }
}

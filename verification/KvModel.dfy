/** The key/value specification that histories are checked against. */
module KvModel {
  import opened LinSearch
  import opened LinModel

  datatype KvOp = Get | Put | Append

  datatype KvInput = KvInput(op: KvOp, key: string, value: string)

  datatype KvOutput = KvOutput(value: string)

  type KvOperation = Operation<KvInput, KvOutput>

  /** One key: the state is its value. */
  function Step(state: string, input: KvInput, output: KvOutput): (bool, string) {
    match input.op
    case Get => (output.value == state, state)
    case Put => (true, input.value)
    case Append => (true, state + input.value)
  }

  const SINGLE_KEY: Model<string, KvInput, KvOutput> := Model("", Step, (s, t) => s == t)

  // ---------- All keys ----------

  type Store = map<string, string>

  /** A key that was never written holds the empty string. */
  function Lookup(store: Store, key: string): string {
    if key in store then store[key] else ""
  }

  function StoreStep(store: Store, input: KvInput, output: KvOutput): (bool, Store) {
    var r := Step(Lookup(store, input.key), input, output);
    (r.0, if input.op.Get? then store else store[input.key := r.1])
  }

  const ALL_KEYS: Model<Store, KvInput, KvOutput> := Model(map[], StoreStep, (s, t) => s == t)

  lemma EqualityRespected()
    ensures EqualRespected(SINGLE_KEY) && EqualRespected(ALL_KEYS)
  {
  }
}

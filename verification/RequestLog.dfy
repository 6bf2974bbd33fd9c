/** The stored log record, and the provider that later cost work reads back from it. */
module RequestLog {
  import opened Common

  /** The parts of a JSON value that log metadata is made of. */
  datatype Meta =
    | Null
    | Number(n: int)
    | Text(text: string)
    | List(items: seq<Meta>)
    | Dict(fields: map<string, Meta>)

  datatype LogRecord = LogRecord(
    namespace: Option<string>,
    model: Option<string>,
    requestTs: int,
    cached: bool,
    fallbackUsed: Option<string>,
    promptTokens: Option<int>,
    completionTokens: Option<int>,
    cachedTokens: Option<int>,
    costUsd: Option<real>,
    wouldHaveCostUsd: Option<real>,
    metadata: Option<Meta>)

  datatype TokenUsage = TokenUsage(prompt: Option<int>, completion: Option<int>, cached: Option<int>)

  /** `value.get(key)`: present only in an object. */
  function Field(m: Meta, key: string): Option<Meta> {
    if m.Dict? && key in m.fields then Some(m.fields[key]) else None
  }

  /** The provider of the last element of `attempts`, if the metadata has that shape. */
  function LastAttemptProvider(metadata: Option<Meta>): Option<string> {
    if metadata.None? then None else
    match Field(metadata.value, "attempts")
    case Some(List(items)) =>
      if items == [] then None else
      (match Field(items[|items| - 1], "provider")
       case Some(Text(p)) => Some(p)
       case _ => None)
    case _ => None
  }

  /** The provider a stored record is priced under. */
  function ResolveProvider(r: LogRecord): Option<string> {
    r.fallbackUsed.OrElse(LastAttemptProvider(r.metadata)).OrElse(r.namespace)
  }

  /** Metadata once `key` is set to `v`; anything but an object is replaced. */
  function Merged(metadata: Option<Meta>, key: string, v: Meta): Option<Meta> {
    match metadata
    case Some(Dict(fields)) => Some(Dict(fields[key := v]))
    case _ => Some(Dict(map[key := v]))
  }

  lemma MergedAttempts(metadata: Option<Meta>, items: seq<Meta>, provider: string)
    requires items != [] && Field(items[|items| - 1], "provider") == Some(Text(provider))
    ensures LastAttemptProvider(Merged(metadata, "attempts", List(items))) == Some(provider)
  {
  }

  /** The record under construction. */
  class LogBuilder {
    var rec: LogRecord

    constructor (namespace: Option<string>, requestTs: int)
      ensures rec == LogRecord(namespace, None, requestTs, false, None, None, None, None, None, None, None)
    {
      rec := LogRecord(namespace, None, requestTs, false, None, None, None, None, None, None, None);
    }

    method SetModel(model: Option<string>)
      modifies this
      ensures rec == old(rec).(model := model)
    {
      rec := rec.(model := model);
    }

    method SetCached(cached: bool)
      modifies this
      ensures rec == old(rec).(cached := cached)
    {
      rec := rec.(cached := cached);
    }

    method SetFallback(provider: Option<string>)
      modifies this
      ensures rec == old(rec).(fallbackUsed := provider)
    {
      rec := rec.(fallbackUsed := provider);
    }

    method SetTokenUsage(u: TokenUsage)
      modifies this
      ensures rec == old(rec).(promptTokens := u.prompt, completionTokens := u.completion, cachedTokens := u.cached)
    {
      rec := rec.(promptTokens := u.prompt, completionTokens := u.completion, cachedTokens := u.cached);
    }

    method SetCost(cost: Option<real>, wouldHave: Option<real>)
      modifies this
      ensures rec == old(rec).(costUsd := cost, wouldHaveCostUsd := wouldHave)
    {
      rec := rec.(costUsd := cost, wouldHaveCostUsd := wouldHave);
    }

    method MergeMetadata(key: string, v: Meta)
      modifies this
      ensures rec == old(rec).(metadata := Merged(old(rec).metadata, key, v))
    {
      var fields: map<string, Meta> := map[];
      if rec.metadata.Some? && rec.metadata.value.Dict? {
        fields := rec.metadata.value.fields;
      }
      rec := rec.(metadata := Some(Dict(fields[key := v])));
    }
  }
}

/**
 * The pure and stateful pieces of the performance helpers
 * (utils/performance_utils.py): the one-time initialisation of the session
 * state, on-demand loading of one state's chunk files, the timing decorator,
 * and the projection of scheme recommendations into plain records.
 *
 * Streamlit's caches, logging, the clock, the semantic matcher and the file
 * system are not modelled: what they produce is passed in.
 */
module PerformanceUtils {
  import opened Text
  import opened Optional
  import ChunkOptimizer

  // ---------------------------------------------------------------------------
  // Session state
  // ---------------------------------------------------------------------------

  /** A value held in the session state. */
  datatype SessionValue =
    | Flag(flag: bool)
    | Str(text: string)
    | Dict(entries: map<string, SessionValue>)

  const CoreInitializedKey: string := "core_initialized"
  const UserStateKey: string := "user_state"
  const LanguageKey: string := "language"
  const SchemeComponentsKey: string := "scheme_components"
  const DefaultLanguage: string := "en"

  /** The four keys `optimize_session_state` may set. */
  const ManagedKeys: set<string> := {CoreInitializedKey, UserStateKey, LanguageKey, SchemeComponentsKey}

  /** The session state after `optimize_session_state`, as a function of the state before. */
  function InitializeSession(s: map<string, SessionValue>): (r: map<string, SessionValue>)
    ensures CoreInitializedKey in r && SchemeComponentsKey in r
    ensures r.Keys == s.Keys + {CoreInitializedKey, SchemeComponentsKey}
                     + (if CoreInitializedKey in s then {} else {UserStateKey, LanguageKey})
    // first run: the core entries get their defaults
    ensures CoreInitializedKey !in s ==>
      r[CoreInitializedKey] == Flag(true)
      && r[UserStateKey] == Str(ChunkOptimizer.StatePlaceholder)
      && r[LanguageKey] == Str(DefaultLanguage)
    // later runs: the core entries are left as they are
    ensures CoreInitializedKey in s ==>
      forall k :: k in s && k != SchemeComponentsKey ==> r[k] == s[k]
    // the components container is created once and never replaced
    ensures SchemeComponentsKey in s ==> r[SchemeComponentsKey] == s[SchemeComponentsKey]
    ensures SchemeComponentsKey !in s ==> r[SchemeComponentsKey] == Dict(map[])
    // nothing else is touched
    ensures forall k :: k in s && k !in ManagedKeys ==> r[k] == s[k]
  {
    var core :=
      if CoreInitializedKey !in s then
        s[CoreInitializedKey := Flag(true)]
         [UserStateKey := Str(ChunkOptimizer.StatePlaceholder)]
         [LanguageKey := Str(DefaultLanguage)]
      else s;
    if SchemeComponentsKey !in core then core[SchemeComponentsKey := Dict(map[])] else core
  }

  /** A second initialisation changes nothing. */
  lemma InitializeSessionIdempotent(s: map<string, SessionValue>)
    ensures InitializeSession(InitializeSession(s)) == InitializeSession(s)
  {
  }

  /**
   * An existing "core_initialized" or "scheme_components" entry is never
   * overwritten; "user_state" and "language" are overwritten exactly when
   * "core_initialized" was absent.
   */
  lemma InitializeSessionOverwrites(s: map<string, SessionValue>, k: string)
    requires k in s
    ensures InitializeSession(s)[k] != s[k] ==>
      (k == UserStateKey || k == LanguageKey) && CoreInitializedKey !in s
  {
  }

  /** Streamlit's `st.session_state`: a dictionary that lives across reruns of the page. */
  class SessionState {
    var entries: map<string, SessionValue>

    constructor (initial: map<string, SessionValue>)
      ensures entries == initial
    {
      entries := initial;
    }

    /**
     * `optimize_session_state`: sets the core entries when "core_initialized"
     * is absent and the components container when "scheme_components" is absent.
     */
    method OptimizeSessionState()
      modifies this
      ensures entries == InitializeSession(old(entries))
      ensures CoreInitializedKey in entries && SchemeComponentsKey in entries
      ensures forall k :: k in old(entries) && k !in ManagedKeys ==> k in entries && entries[k] == old(entries)[k]
    {
      if CoreInitializedKey !in entries {
        entries := entries[CoreInitializedKey := Flag(true)];
        entries := entries[UserStateKey := Str(ChunkOptimizer.StatePlaceholder)];
        entries := entries[LanguageKey := Str(DefaultLanguage)];
      }
      if SchemeComponentsKey !in entries {
        entries := entries[SchemeComponentsKey := Dict(map[])];
      }
    }
  }

  // ---------------------------------------------------------------------------
  // Loading one state's chunks on demand
  // ---------------------------------------------------------------------------

  /** The state name `load_chunks_on_demand` puts into its pattern: lower-cased, spaces removed. */
  function CleanStateName(stateName: string): (clean: string)
    ensures clean == RemoveChar(Lower(stateName), ' ')
    ensures ' ' !in clean
  {
    ReplaceCharByEmpty(Lower(stateName), ' ');
    Replace(Lower(stateName), " ", "")
  }

  /** On-demand loading and the lookup of `get_chunks_for_state` normalise a state name the same way. */
  lemma CleanStateNameAgrees(stateName: string)
    ensures CleanStateName(stateName) == ChunkOptimizer.NormalizeStateName(stateName)
  {
  }

  /**
   * The glob pattern `load_chunks_on_demand` builds. It names the same key
   * under which `get_chunks_for_state` looks the state up.
   */
  function OnDemandPattern(stateName: string): (pattern: string)
    ensures pattern == "chunks/state_" + ChunkOptimizer.NormalizeStateName(stateName) + "_*.txt"
  {
    CleanStateNameAgrees(stateName);
    "chunks/state_" + CleanStateName(stateName) + "_*.txt"
  }

  /** The texts of the files that could be read, unstripped and in glob order. */
  function ReadContents(files: seq<Option<string>>): (chunks: seq<string>)
    ensures |chunks| <= |files|
  {
    if files == [] then []
    else
      var last := files[|files| - 1];
      ReadContents(files[..|files| - 1]) + (if last.Some? then [last.value] else [])
  }

  /** Every file that could be read contributes its text exactly as read, even when it is blank. */
  lemma {:induction false} ReadContentsKeepsEverything(files: seq<Option<string>>, i: nat)
    requires i < |files| && files[i].Some?
    ensures files[i].value in ReadContents(files)
  {
    if i < |files| - 1 {
      ReadContentsKeepsEverything(files[..|files| - 1], i);
    }
  }

  /** When every file can be read, on-demand loading returns all their texts unchanged. */
  lemma {:induction false} ReadContentsAllReadable(files: seq<Option<string>>)
    requires forall i :: 0 <= i < |files| ==> files[i].Some?
    ensures |ReadContents(files)| == |files|
    ensures forall i :: 0 <= i < |files| ==> ReadContents(files)[i] == files[i].value
  {
    if files != [] {
      ReadContentsAllReadable(files[..|files| - 1]);
    }
  }

  /**
   * `load_chunks_on_demand`: the pattern it globs, and the texts of the
   * files the glob returned (`files`, each `None` when reading it raised).
   */
  method LoadChunksOnDemand(stateName: string, files: seq<Option<string>>) returns (pattern: string, chunks: seq<string>)
    ensures pattern == "chunks/state_" + RemoveChar(Lower(stateName), ' ') + "_*.txt"
    ensures chunks == ReadContents(files)
    ensures |chunks| <= |files|
  {
    pattern := "chunks/state_" + Replace(Lower(stateName), " ", "") + "_*.txt";
    assert pattern == OnDemandPattern(stateName);
    chunks := [];
    for i := 0 to |files|
      invariant chunks == ReadContents(files[..i])
    {
      assert files[..i + 1][..i] == files[..i];
      match files[i]
      case Some(text) =>
        chunks := chunks + [text];
      case None =>
        // reading raised: logged and skipped
    }
    assert files[..|files|] == files;
  }

  // ---------------------------------------------------------------------------
  // The timing decorator
  // ---------------------------------------------------------------------------

  /** `performance_timer(func)`: a wrapper that logs the elapsed time and returns what `func` returns. */
  function PerformanceTimer<A(!new), B>(func: A -> B): (wrapper: A -> B)
    ensures forall a :: wrapper(a) == func(a)
  {
    a => func(a)
  }

  // ---------------------------------------------------------------------------
  // Recommendations as plain records
  // ---------------------------------------------------------------------------

  /** The attributes of a scheme recommendation that are copied into the cached record. */
  datatype Recommendation<V> = Recommendation(
    schemeName: V,
    relevanceScore: V,
    benefits: V,
    eligibilityRequirements: V,
    eligibilityStatus: V,
    applicationProcess: V,
    whyRecommended: V)

  /** The keys of a cached record. */
  const RecordKeys: set<string> := {
    "scheme_name", "relevance_score", "benefits", "eligibility_requirements",
    "eligibility_status", "application_process", "why_recommended"}

  /** The dictionary built for one recommendation. */
  function ToRecord<V>(rec: Recommendation<V>): (r: map<string, V>)
    ensures r.Keys == RecordKeys
  {
    map[
      "scheme_name" := rec.schemeName,
      "relevance_score" := rec.relevanceScore,
      "benefits" := rec.benefits,
      "eligibility_requirements" := rec.eligibilityRequirements,
      "eligibility_status" := rec.eligibilityStatus,
      "application_process" := rec.applicationProcess,
      "why_recommended" := rec.whyRecommended]
  }

  /** Reading a record back: `None` when a key is missing. */
  function FromRecord<V>(r: map<string, V>): Option<Recommendation<V>> {
    if RecordKeys <= r.Keys then
      Some(Recommendation(
        r["scheme_name"], r["relevance_score"], r["benefits"], r["eligibility_requirements"],
        r["eligibility_status"], r["application_process"], r["why_recommended"]))
    else None
  }

  /** A record carries every copied attribute: reading it back gives the recommendation. */
  lemma RecordRoundTrip<V>(rec: Recommendation<V>)
    ensures FromRecord(ToRecord(rec)) == Some(rec)
  {
  }

  /**
   * The list comprehension of `cached_scheme_recommendations`: one record per
   * recommendation, in the matcher's order.
   */
  function RecommendationRecords<V>(recommendations: seq<Recommendation<V>>): (records: seq<map<string, V>>)
    ensures |records| == |recommendations|
    ensures forall i :: 0 <= i < |records| ==>
      records[i].Keys == RecordKeys && FromRecord(records[i]) == Some(recommendations[i])
  {
    seq(|recommendations|, i requires 0 <= i < |recommendations| => ToRecord(recommendations[i]))
  }

  /** Different recommendation lists give different record lists: nothing is lost in the projection. */
  lemma RecommendationRecordsInjective<V>(a: seq<Recommendation<V>>, b: seq<Recommendation<V>>)
    requires RecommendationRecords(a) == RecommendationRecords(b)
    ensures a == b
  {
    assert |a| == |b|;
    forall i | 0 <= i < |a| ensures a[i] == b[i] {
      assert FromRecord(RecommendationRecords(a)[i]) == Some(a[i]);
      assert FromRecord(RecommendationRecords(b)[i]) == Some(b[i]);
    }
  }
}

/** The model tables of app/openai_constants.py and the alias resolver over them. */
module ModelRegistry {
  import opened Wrappers

  const MaxTokens := 1024

  const Gpt35Turbo := "gpt-3.5-turbo"
  const Gpt35Turbo0301 := "gpt-3.5-turbo-0301"
  const Gpt35Turbo0613 := "gpt-3.5-turbo-0613"
  const Gpt35Turbo1106 := "gpt-3.5-turbo-1106"
  const Gpt35Turbo0125 := "gpt-3.5-turbo-0125"
  const Gpt35Turbo16k := "gpt-3.5-turbo-16k"
  const Gpt35Turbo16k0613 := "gpt-3.5-turbo-16k-0613"
  const Gpt4 := "gpt-4"
  const Gpt4_0314 := "gpt-4-0314"
  const Gpt4_0613 := "gpt-4-0613"
  const Gpt4_1106Preview := "gpt-4-1106-preview"
  const Gpt4_0125Preview := "gpt-4-0125-preview"
  const Gpt4TurboPreview := "gpt-4-turbo-preview"
  const Gpt4Turbo := "gpt-4-turbo"
  const Gpt4Turbo2024_04_09 := "gpt-4-turbo-2024-04-09"
  const Gpt4_32k := "gpt-4-32k"
  const Gpt4_32k0314 := "gpt-4-32k-0314"
  const Gpt4_32k0613 := "gpt-4-32k-0613"
  const Gpt4o := "gpt-4o"
  const Gpt4o2024_05_13 := "gpt-4o-2024-05-13"
  const Gpt4oMini := "gpt-4o-mini"
  const Gpt4oMini2024_07_18 := "gpt-4o-mini-2024-07-18"
  const Gpt41 := "gpt-4.1"
  const Gpt41_2025_04_14 := "gpt-4.1-2025-04-14"
  const Gpt41Mini := "gpt-4.1-mini"
  const Gpt41Mini2025_04_14 := "gpt-4.1-mini-2025-04-14"
  const Gpt41Nano := "gpt-4.1-nano"
  const Gpt41Nano2025_04_14 := "gpt-4.1-nano-2025-04-14"
  const Gpt5ChatLatest := "gpt-5-chat-latest"
  const Gpt5 := "gpt-5"
  const Gpt5Mini := "gpt-5-mini"
  const Gpt5Nano := "gpt-5-nano"
  const O3 := "o3"
  const O4Mini := "o4-mini"
  const Gpt5_2025_08_07 := "gpt-5-2025-08-07"
  const Gpt5Mini2025_08_07 := "gpt-5-mini-2025-08-07"
  const Gpt5Nano2025_08_07 := "gpt-5-nano-2025-08-07"
  const O3_2025_04_16 := "o3-2025-04-16"
  const O4Mini2025_04_16 := "o4-mini-2025-04-16"

  /** The model whose overheads `calculate_num_tokens` uses when it is not told a model. */
  const DefaultTokenCountModel := Gpt35Turbo0613

  /** (tokens_per_message, tokens_per_name) per dated model id. */
  const ModelTokens: map<string, (int, int)> := map[
    Gpt35Turbo0613 := (3, 1),
    Gpt35Turbo16k0613 := (3, 1),
    Gpt35Turbo1106 := (3, 1),
    Gpt35Turbo0125 := (3, 1),
    Gpt35Turbo0301 := (4, -1),
    Gpt4_0314 := (3, 1),
    Gpt4_32k0314 := (3, 1),
    Gpt4_0613 := (3, 1),
    Gpt4_32k0613 := (3, 1),
    Gpt4_1106Preview := (3, 1),
    Gpt4_0125Preview := (3, 1),
    Gpt4TurboPreview := (3, 1),
    Gpt41 := (3, 1),
    Gpt41_2025_04_14 := (3, 1),
    Gpt41Mini := (3, 1),
    Gpt41Mini2025_04_14 := (3, 1),
    Gpt41Nano := (3, 1),
    Gpt41Nano2025_04_14 := (3, 1),
    Gpt4Turbo2024_04_09 := (3, 1),
    Gpt4o2024_05_13 := (3, 1),
    Gpt4oMini2024_07_18 := (3, 1),
    Gpt5ChatLatest := (3, 1),
    Gpt5_2025_08_07 := (3, 1),
    Gpt5Mini2025_08_07 := (3, 1),
    Gpt5Nano2025_08_07 := (3, 1),
    O3_2025_04_16 := (3, 1),
    O4Mini2025_04_16 := (3, 1)
  ]

  /** Alias to dated model. */
  const ModelFallbacks: map<string, string> := map[
    Gpt35Turbo := Gpt35Turbo0125,
    Gpt35Turbo16k := Gpt35Turbo16k0613,
    Gpt4 := Gpt4_0613,
    Gpt4Turbo := Gpt4Turbo2024_04_09,
    Gpt4_32k := Gpt4_32k0613,
    Gpt4o := Gpt4o2024_05_13,
    Gpt4oMini := Gpt4oMini2024_07_18,
    Gpt41 := Gpt41_2025_04_14,
    Gpt41Mini := Gpt41Mini2025_04_14,
    Gpt41Nano := Gpt41Nano2025_04_14,
    Gpt5 := Gpt5_2025_08_07,
    Gpt5Mini := Gpt5Mini2025_08_07,
    Gpt5Nano := Gpt5Nano2025_08_07,
    O3 := O3_2025_04_16,
    O4Mini := O4Mini2025_04_16
  ]

  /** Context window size per dated model id. */
  const ModelContextLengths: map<string, nat> := map[
    Gpt35Turbo0301 := 4096,
    Gpt35Turbo0613 := 4096,
    Gpt35Turbo16k0613 := 16384,
    Gpt35Turbo1106 := 16384,
    Gpt35Turbo0125 := 16384,
    Gpt4_0314 := 8192,
    Gpt4_0613 := 8192,
    Gpt4_32k0314 := 32768,
    Gpt4_32k0613 := 32768,
    Gpt4_1106Preview := 128000,
    Gpt4_0125Preview := 128000,
    Gpt4TurboPreview := 128000,
    Gpt4Turbo2024_04_09 := 128000,
    Gpt4o2024_05_13 := 128000,
    Gpt4oMini2024_07_18 := 128000,
    Gpt41_2025_04_14 := 1048576,
    Gpt41Mini2025_04_14 := 1048576,
    Gpt41Nano2025_04_14 := 1048576,
    Gpt5ChatLatest := 128000,
    Gpt5_2025_08_07 := 128000,
    Gpt5Mini2025_08_07 := 128000,
    Gpt5Nano2025_08_07 := 128000,
    O3_2025_04_16 := 128000,
    O4Mini2025_04_16 := 128000
  ]

  /** The model reached from `m` after `k` steps through `fallbacks`; a model
      that is not an alias is a fixed point. */
  function Chain(fallbacks: map<string, string>, m: string, k: nat): string
    decreases k
  {
    if k == 0 || m !in fallbacks then m else Chain(fallbacks, fallbacks[m], k - 1)
  }

  /** Following the aliases from `m` never reaches a non-alias. */
  ghost predicate Cyclic(fallbacks: map<string, string>, m: string) {
    forall k: nat :: Chain(fallbacks, m, k) in fallbacks
  }

  lemma {:induction false} ChainAdd(fallbacks: map<string, string>, m: string, a: nat, b: nat)
    ensures Chain(fallbacks, m, a + b) == Chain(fallbacks, Chain(fallbacks, m, a), b)
    decreases a
  {
    if a > 0 && m in fallbacks {
      ChainAdd(fallbacks, fallbacks[m], a - 1, b);
    }
  }

  /** A chain that meets a model again while every step so far was an alias
      step goes round that loop forever. */
  lemma {:induction false} RevisitIsCycle(fallbacks: map<string, string>, m: string, i: nat, j: nat)
    requires i < j
    requires Chain(fallbacks, m, i) == Chain(fallbacks, m, j)
    requires forall k: nat :: k < j ==> Chain(fallbacks, m, k) in fallbacks
    ensures Cyclic(fallbacks, m)
  {
    forall k: nat ensures Chain(fallbacks, m, k) in fallbacks {
      RevisitAt(fallbacks, m, i, j, k);
    }
  }

  lemma {:induction false} RevisitAt(fallbacks: map<string, string>, m: string, i: nat, j: nat, k: nat)
    requires i < j
    requires Chain(fallbacks, m, i) == Chain(fallbacks, m, j)
    requires forall k: nat :: k < j ==> Chain(fallbacks, m, k) in fallbacks
    ensures Chain(fallbacks, m, k) in fallbacks
    decreases k
  {
    if k >= j {
      var d := j - i;
      var t := k - j;
      ChainAdd(fallbacks, m, j, t);
      ChainAdd(fallbacks, m, i, t);
      assert Chain(fallbacks, m, k) == Chain(fallbacks, m, k - d);
      RevisitAt(fallbacks, m, i, j, k - d);
    }
  }

  /** `resolve_model_alias`: walk the alias chain, remembering every model
      seen, and fail on the first model seen twice. The table is a parameter
      because callers (and the tests) may change `MODEL_FALLBACKS`. */
  method ResolveModelAlias(fallbacks: map<string, string>, model: Option<string>)
    returns (r: Result<Option<string>, Error>)
    ensures model.None? ==> r == Success(None)
    ensures model.Some? && model.value !in fallbacks ==> r == Success(model)
    ensures model.Some? ==> (r.Success? <==> !Cyclic(fallbacks, model.value))
    ensures r.Success? && model.Some? ==>
      && r.value.Some? && r.value.value !in fallbacks
      && exists n: nat :: Chain(fallbacks, model.value, n) == r.value.value
    ensures r.Failure? ==>
      && model.Some? && r.error.CircularDependency?
      && exists i: nat, j: nat :: i < j && Chain(fallbacks, model.value, i) == r.error.model
                                        && Chain(fallbacks, model.value, j) == r.error.model
  {
    if model.None? {
      return Success(None);
    }
    var m := model.value;
    var current := m;
    var visited := {m};
    ghost var path := [m];
    ghost var universe := fallbacks.Keys + fallbacks.Values + {m};
    while current in fallbacks
      invariant ChainPath(fallbacks, m, path) && current == path[|path| - 1]
      invariant forall x :: x in visited <==> x in path
      invariant visited <= universe
      decreases |universe - visited|
    {
      PathStep(fallbacks, m, path);
      current := fallbacks[current];
      if current in visited {
        ghost var i :| 0 <= i < |path| && path[i] == current;
        RevisitIsCycle(fallbacks, m, i, |path|);
        return Failure(CircularDependency(current));
      }
      assert (universe - (visited + {current})) + {current} == universe - visited;
      visited := visited + {current};
      path := path + [current];
    }
    assert !Cyclic(fallbacks, m);
    return Success(Some(current));
  }

  /** `path` lists the first models of the chain from `m`, each but the last an alias. */
  ghost predicate ChainPath(fallbacks: map<string, string>, m: string, path: seq<string>) {
    && |path| >= 1
    && (forall i :: 0 <= i < |path| ==> path[i] == Chain(fallbacks, m, i))
    && (forall i :: 0 <= i < |path| - 1 ==> path[i] in fallbacks)
  }

  /** One more step of the loop extends the path by the next model of the chain. */
  lemma PathStep(fallbacks: map<string, string>, m: string, path: seq<string>)
    requires ChainPath(fallbacks, m, path) && path[|path| - 1] in fallbacks
    ensures ChainPath(fallbacks, m, path + [fallbacks[path[|path| - 1]]])
    ensures Chain(fallbacks, m, |path|) == fallbacks[path[|path| - 1]]
  {
    ChainAdd(fallbacks, m, |path| - 1, 1);
  }

  /** In the shipped table every alias names a dated model that is not itself
      an alias and that both the overhead table and the window table know. */
  lemma ShippedAliasesAreDated()
    ensures forall a :: a in ModelFallbacks ==>
      ModelFallbacks[a] !in ModelFallbacks &&
      ModelFallbacks[a] in ModelTokens && ModelFallbacks[a] in ModelContextLengths
  {
  }

  /** Hence, with the shipped table, resolution never fails and every alias
      resolves in one step to a model with known overheads and window. */
  lemma {:induction false} ShippedResolution(m: string, k: nat)
    requires k >= 1
    ensures !Cyclic(ModelFallbacks, m)
    ensures Chain(ModelFallbacks, m, k) == if m in ModelFallbacks then ModelFallbacks[m] else m
    ensures m in ModelFallbacks ==>
      Chain(ModelFallbacks, m, k) in ModelTokens && Chain(ModelFallbacks, m, k) in ModelContextLengths
  {
    ShippedAliasesAreDated();
    if m in ModelFallbacks {
      var t := ModelFallbacks[m];
      assert Chain(ModelFallbacks, t, k - 1) == t;
      assert Chain(ModelFallbacks, m, 1) !in ModelFallbacks;
    } else {
      assert Chain(ModelFallbacks, m, 0) !in ModelFallbacks;
    }
  }

  /** `resolve_model_alias(GPT_4_MODEL) == GPT_4_0613_MODEL`. */
  method ResolveGpt4() returns (r: Result<Option<string>, Error>)
    ensures r == Success(Some(Gpt4_0613))
  {
    r := ResolveModelAlias(ModelFallbacks, Some(Gpt4));
    ShippedAliasesAreDated();
    var n: nat :| Chain(ModelFallbacks, Gpt4, n) == r.value.value;
    if n == 0 {
      assert false;
    }
    ShippedResolution(Gpt4, n);
  }
}

/**
 * src/contexts/ThemeContext.tsx: merging a partial theme into the current one.
 * A theme is a map from section names (`colors`, `spacing`, ...) to values;
 * the merge goes one level deep, so anything nested below a section's own keys
 * is replaced wholesale.
 */
module ThemeContext {
  import opened Options

  /**
   * A JavaScript value as far as the merge can tell them apart: a plain object,
   * an array, `null`, `undefined`, or any other (primitive) value.
   */
  datatype Value =
    | Obj(fields: map<string, Value>)
    | Arr(items: seq<Value>)
    | Null
    | Undefined
    | Prim(text: string)

  type Theme = map<string, Value>

  /** The value one key receives when `sourceValue` is merged over `targetValue`. */
  function MergeValue(targetValue: Value, sourceValue: Value): Value {
    if sourceValue.Obj? && targetValue.Obj? then Obj(targetValue.fields + sourceValue.fields)
    else sourceValue
  }

  /** The keys of `source` whose value is not `undefined`. */
  function DefinedKeys(source: Theme): set<string> {
    set k | k in source && source[k] != Undefined
  }

  /**
   * `deepMerge(target, source)`.  Keys missing from `source` or `undefined` in
   * it keep the target's value; where both values are plain objects the result
   * is their one-level merge, with the source's sub-keys winning and the
   * target's other sub-keys kept; otherwise the source value replaces the
   * target value.
   */
  function DeepMerge(target: Theme, source: Theme): (r: Theme)
    ensures r.Keys == target.Keys + DefinedKeys(source)
    ensures forall k :: k in target && k !in DefinedKeys(source) ==> r[k] == target[k]
    ensures forall k :: k in DefinedKeys(source) && k in target && source[k].Obj? && target[k].Obj? ==>
              r[k].Obj?
              && r[k].fields.Keys == target[k].fields.Keys + source[k].fields.Keys
              && (forall f :: f in source[k].fields ==> r[k].fields[f] == source[k].fields[f])
              && (forall f :: f in target[k].fields && f !in source[k].fields ==> r[k].fields[f] == target[k].fields[f])
    ensures forall k :: k in DefinedKeys(source) && !(k in target && source[k].Obj? && target[k].Obj?) ==>
              r[k] == source[k]
  {
    map k | k in target.Keys + DefinedKeys(source) ::
      if k in DefinedKeys(source) then
        (if k in target then MergeValue(target[k], source[k]) else source[k])
      else target[k]
  }

  /** Merging an empty partial theme returns the theme unchanged. */
  lemma MergeEmpty(target: Theme)
    ensures DeepMerge(target, map[]) == target
  {
  }

  /** Merging the same partial theme twice is the same as merging it once. */
  lemma MergeIdempotent(target: Theme, source: Theme)
    ensures DeepMerge(DeepMerge(target, source), source) == DeepMerge(target, source)
  {
    var once := DeepMerge(target, source);
    var twice := DeepMerge(once, source);
    forall k | k in twice.Keys
      ensures twice[k] == once[k]
    {
      if k in DefinedKeys(source) && source[k].Obj? && once[k].Obj? {
        var sf := source[k].fields;
        var of := once[k].fields;
        assert of.Keys >= sf.Keys by {
          if k in target && target[k].Obj? {
          } else {
            assert once[k] == source[k];
          }
        }
        assert forall f :: f in sf ==> of[f] == sf[f] by {
          if k in target && target[k].Obj? {
          } else {
            assert once[k] == source[k];
          }
        }
        assert of + sf == of;
      }
    }
    assert twice.Keys == once.Keys;
  }

  /** The provider's theme state. */
  datatype ThemeState = ThemeState(theme: Theme)

  /** `setTheme(partial)`: the current theme becomes the merge of `partial` into it. */
  function SetTheme(s: ThemeState, partial: Theme): (r: ThemeState)
    ensures r.theme.Keys == s.theme.Keys + DefinedKeys(partial)
    ensures forall k :: k in s.theme && k !in DefinedKeys(partial) ==> r.theme[k] == s.theme[k]
    ensures forall k :: k in DefinedKeys(partial) ==>
              r.theme[k] == if k in s.theme then MergeValue(s.theme[k], partial[k]) else partial[k]
    ensures r.theme == DeepMerge(s.theme, partial)
  {
    ThemeState(DeepMerge(s.theme, partial))
  }

  /** Calling `setTheme` twice with the same partial theme is the same as calling it once. */
  lemma SetThemeIdempotent(s: ThemeState, partial: Theme)
    ensures SetTheme(SetTheme(s, partial), partial) == SetTheme(s, partial)
  {
    MergeIdempotent(s.theme, partial);
  }

  /** What reading the theme context can give: the provider's state, or the error raised outside a provider. */
  datatype ThemeLookup = InProvider(state: ThemeState) | OutsideProvider

  /**
   * `useFlowTheme()`: the enclosing provider's state, or an error when there is
   * no provider (`context` is `None` outside one).
   */
  function UseFlowTheme(context: Option<ThemeState>): (r: ThemeLookup)
    ensures r.OutsideProvider? <==> context.None?
    ensures r.InProvider? ==> Some(r.state) == context
  {
    match context
    case None => OutsideProvider
    case Some(s) => InProvider(s)
  }

  /** `useFlowThemeSafe()`: the provider's theme, or `defaultTheme` outside a provider. */
  function UseFlowThemeSafe(context: Option<ThemeState>, defaultTheme: Theme): (r: Theme)
    ensures context.Some? ==> r == context.value.theme
    ensures context.None? ==> r == defaultTheme
  {
    match context
    case None => defaultTheme
    case Some(s) => s.theme
  }

  /** Wherever `useFlowTheme` succeeds, the safe variant reads the same theme. */
  lemma SafeAgreesInProvider(context: Option<ThemeState>, defaultTheme: Theme)
    ensures UseFlowTheme(context).InProvider? ==>
              UseFlowThemeSafe(context, defaultTheme) == UseFlowTheme(context).state.theme
  {
  }
}

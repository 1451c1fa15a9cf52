/**
 * The base property resolver: defaulting and strict lookups over the
 * underlying property source, the insertion-ordered set of required keys and
 * its validation, and the placeholder helpers it creates lazily.
 */
module PropertyResolution {
  import opened Wrappers

  const DefaultPlaceholderPrefix := "${"
  const DefaultPlaceholderSuffix := "}"
  const DefaultValueSeparator := ":"

  datatype ResolverError =
    | IllegalState(message: string)
    | IllegalArgument(message: string)
    | MissingRequiredProperties(missing: seq<string>)

  /** The configuration a placeholder helper is built with. */
  datatype PlaceholderHelper = PlaceholderHelper(prefix: string, suffix: string, separator: string, ignoreUnresolvable: bool)

  /**
   * Placeholder substitution performed by a helper: given the helper, the
   * text and the property source its placeholders are looked up in, the
   * resolved text or the error it raises. A strict helper reports an
   * unresolvable placeholder with `IllegalArgument`.
   */
  type Replacer = (PlaceholderHelper, string, map<string, string>) -> Result<string, ResolverError>

  /** A lookup with a fallback: the value when there is one, `defaultValue` exactly when the lookup is null. */
  function GetProperty(properties: map<string, string>, key: string, defaultValue: string): (r: string)
    ensures key in properties ==> r == properties[key]
    ensures key !in properties ==> r == defaultValue
  {
    if key in properties then properties[key] else defaultValue
  }

  /** The typed overload, over a typed lookup that may find nothing. */
  function GetTypedProperty<T>(lookup: string -> Option<T>, key: string, defaultValue: T): (r: T)
    ensures lookup(key).Some? ==> r == lookup(key).value
    ensures lookup(key).None? ==> r == defaultValue
  {
    match lookup(key)
    case Some(v) => v
    case None => defaultValue
  }

  function NotFound(key: string): ResolverError {
    IllegalState("required key [" + key + "] not found")
  }

  /** A lookup that fails with IllegalState when the key looks up null. */
  function GetRequiredProperty(properties: map<string, string>, key: string): (r: Result<string, ResolverError>)
    ensures r.Ok? <==> key in properties
    ensures r.Ok? ==> r.value == properties[key]
    ensures r.Err? ==> r.error == NotFound(key)
  {
    if key in properties then Ok(properties[key]) else Err(NotFound(key))
  }

  /** The typed overload of the strict lookup. */
  function GetRequiredTypedProperty<T>(lookup: string -> Option<T>, key: string): (r: Result<T, ResolverError>)
    ensures r.Ok? <==> lookup(key).Some?
    ensures r.Ok? ==> r.value == lookup(key).value
    ensures r.Err? ==> r.error == NotFound(key)
  {
    match lookup(key)
    case Some(v) => Ok(v)
    case None => Err(NotFound(key))
  }

  /** The strict lookup succeeds exactly when the defaulting one ignores its default, and then they agree. */
  lemma StrictAgreesWithDefaulting(properties: map<string, string>, key: string)
    ensures GetRequiredProperty(properties, key).Ok? ==>
      forall d :: GetProperty(properties, key, d) == GetRequiredProperty(properties, key).value
    ensures GetRequiredProperty(properties, key).Err? ==>
      forall d :: GetProperty(properties, key, d) == d
  {
  }

  predicate NoDuplicates(s: seq<string>) {
    forall i, j :: 0 <= i < j < |s| ==> s[i] != s[j]
  }

  /** Adding one key to an insertion-ordered set: a new key goes last, a known key changes nothing. */
  function Insert(s: seq<string>, k: string): (r: seq<string>)
    ensures NoDuplicates(s) ==> NoDuplicates(r)
    ensures forall x :: x in r <==> x in s || x == k
    ensures |s| <= |r| && r[..|s|] == s
  {
    if k in s then s else s + [k]
  }

  /** The required set after adding `keys` one after another. */
  function AddRequired(required: seq<string>, keys: seq<string>): seq<string> {
    if keys == [] then required
    else Insert(AddRequired(required, keys[..|keys| - 1]), keys[|keys| - 1])
  }

  /**
   * Adding keys keeps the old keys first and in order, adds each new key once
   * and nothing else.
   */
  lemma {:induction false} AddRequiredContents(required: seq<string>, keys: seq<string>)
    requires NoDuplicates(required)
    ensures var r := AddRequired(required, keys);
      && NoDuplicates(r)
      && |required| <= |r| && r[..|required|] == required
      && (forall x :: x in r <==> x in required || x in keys)
  {
    if keys != [] {
      var init := keys[..|keys| - 1];
      AddRequiredContents(required, init);
      assert keys == init + [keys[|keys| - 1]];
      var r0 := AddRequired(required, init);
      assert r0[..|required|] == required;
      assert AddRequired(required, keys)[..|r0|] == r0;
      assert AddRequired(required, keys)[..|required|] == r0[..|required|];
    }
  }

  /** Insertion order: the set after a prefix of the keys is a prefix of the set after all of them. */
  lemma {:induction false} AddRequiredKeepsInsertionOrder(required: seq<string>, keys: seq<string>, i: nat)
    requires i <= |keys|
    ensures var r := AddRequired(required, keys);
      var ri := AddRequired(required, keys[..i]);
      |ri| <= |r| && r[..|ri|] == ri
  {
    if i < |keys| {
      var init := keys[..|keys| - 1];
      AddRequiredKeepsInsertionOrder(required, init, i);
      assert init[..i] == keys[..i];
      var r0 := AddRequired(required, init);
      assert AddRequired(required, keys)[..|r0|] == r0;
    } else {
      assert keys[..i] == keys;
    }
  }

  /** The required keys that look up null, in required-set order. */
  function Missing(required: seq<string>, properties: map<string, string>): seq<string> {
    if required == [] then []
    else
      var last := required[|required| - 1];
      Missing(required[..|required| - 1], properties) + (if last in properties then [] else [last])
  }

  /** The missing list holds exactly the required keys that look up null, each once. */
  lemma {:induction false} MissingExactly(required: seq<string>, properties: map<string, string>)
    ensures var m := Missing(required, properties);
      && |m| <= |required|
      && (forall x :: x in m <==> x in required && x !in properties)
      && (NoDuplicates(required) ==> NoDuplicates(m))
  {
    if required != [] {
      var init := required[..|required| - 1];
      MissingExactly(init, properties);
      assert required == init + [required[|required| - 1]];
      if NoDuplicates(required) {
        assert NoDuplicates(init) by {
          forall i, j | 0 <= i < j < |init| ensures init[i] != init[j] {
            assert init[i] == required[i] && init[j] == required[j];
          }
        }
        assert required[|required| - 1] !in init by {
          forall i | 0 <= i < |init| ensures init[i] != required[|required| - 1] {
            assert init[i] == required[i];
          }
        }
      }
    }
  }

  class PropertyResolver {
    /** What the concrete resolver's getProperty(key) finds; an absent key looks up null. */
    const properties: map<string, string>
    const replacer: Replacer
    var placeholderPrefix: string
    var placeholderSuffix: string
    var valueSeparator: string
    var ignoreUnresolvableNestedPlaceholders: bool
    var requiredProperties: seq<string>
    var nonStrictHelper: Option<PlaceholderHelper>
    var strictHelper: Option<PlaceholderHelper>

    ghost predicate Valid()
      reads this
    {
      NoDuplicates(requiredProperties) &&
      (nonStrictHelper.Some? ==> nonStrictHelper.value.ignoreUnresolvable) &&
      (strictHelper.Some? ==> !strictHelper.value.ignoreUnresolvable)
    }

    constructor (properties: map<string, string>, replacer: Replacer)
      ensures Valid() && this.properties == properties && this.replacer == replacer
      ensures placeholderPrefix == DefaultPlaceholderPrefix && placeholderSuffix == DefaultPlaceholderSuffix
      ensures valueSeparator == DefaultValueSeparator && !ignoreUnresolvableNestedPlaceholders
      ensures requiredProperties == [] && nonStrictHelper.None? && strictHelper.None?
    {
      this.properties, this.replacer := properties, replacer;
      placeholderPrefix, placeholderSuffix, valueSeparator := DefaultPlaceholderPrefix, DefaultPlaceholderSuffix, DefaultValueSeparator;
      ignoreUnresolvableNestedPlaceholders := false;
      requiredProperties := [];
      nonStrictHelper, strictHelper := None, None;
    }

    method SetRequiredProperties(keys: seq<string>)
      requires Valid()
      modifies this`requiredProperties
      ensures Valid() && requiredProperties == AddRequired(old(requiredProperties), keys)
    {
      var i := 0;
      while i < |keys|
        invariant 0 <= i <= |keys|
        invariant NoDuplicates(requiredProperties)
        invariant requiredProperties == AddRequired(old(requiredProperties), keys[..i])
      {
        assert keys[..i + 1][..i] == keys[..i];
        requiredProperties := Insert(requiredProperties, keys[i]);
        i := i + 1;
      }
      assert keys[..|keys|] == keys;
    }

    /** Fails, listing the missing keys, exactly when some required key looks up null; changes nothing. */
    method ValidateRequiredProperties() returns (err: Option<ResolverError>)
      ensures err.None? <==> forall k :: k in requiredProperties ==> k in properties
      ensures err.Some? ==> err.value == MissingRequiredProperties(Missing(requiredProperties, properties))
    {
      var missing := [];
      var i := 0;
      while i < |requiredProperties|
        invariant 0 <= i <= |requiredProperties|
        invariant missing == Missing(requiredProperties[..i], properties)
      {
        assert requiredProperties[..i + 1][..i] == requiredProperties[..i];
        var key := requiredProperties[i];
        if key !in properties {
          missing := missing + [key];
        }
        i := i + 1;
      }
      assert requiredProperties[..i] == requiredProperties;
      MissingExactly(requiredProperties, properties);
      assert missing != [] ==> missing[0] in missing;
      if missing != [] {
        err := Some(MissingRequiredProperties(missing));
      } else {
        err := None;
      }
    }

    method SetPlaceholderPrefix(prefix: string)
      modifies this`placeholderPrefix
      ensures placeholderPrefix == prefix
    {
      placeholderPrefix := prefix;
    }

    method SetPlaceholderSuffix(suffix: string)
      modifies this`placeholderSuffix
      ensures placeholderSuffix == suffix
    {
      placeholderSuffix := suffix;
    }

    method SetValueSeparator(separator: string)
      modifies this`valueSeparator
      ensures valueSeparator == separator
    {
      valueSeparator := separator;
    }

    method SetIgnoreUnresolvableNestedPlaceholders(ignore: bool)
      modifies this`ignoreUnresolvableNestedPlaceholders
      ensures ignoreUnresolvableNestedPlaceholders == ignore
    {
      ignoreUnresolvableNestedPlaceholders := ignore;
    }

    /** A helper built from the current prefix, suffix and separator. */
    function CreatePlaceholderHelper(ignoreUnresolvable: bool): (h: PlaceholderHelper)
      reads this
      ensures h.prefix == placeholderPrefix && h.suffix == placeholderSuffix && h.separator == valueSeparator
      ensures h.ignoreUnresolvable == ignoreUnresolvable
    {
      PlaceholderHelper(placeholderPrefix, placeholderSuffix, valueSeparator, ignoreUnresolvable)
    }

    /** Lenient substitution; the lenient helper is built on first use, from the settings of that moment, and kept. */
    method ResolvePlaceholders(text: string) returns (r: Result<string, ResolverError>)
      requires Valid()
      modifies this`nonStrictHelper
      ensures Valid()
      ensures nonStrictHelper == Some(old(nonStrictHelper).GetOr(CreatePlaceholderHelper(true)))
      ensures r == replacer(nonStrictHelper.value, text, properties)
    {
      if nonStrictHelper.None? {
        nonStrictHelper := Some(CreatePlaceholderHelper(true));
      }
      r := replacer(nonStrictHelper.value, text, properties);
    }

    /** Strict substitution; the strict helper is built on first use, from the settings of that moment, and kept. */
    method ResolveRequiredPlaceholders(text: string) returns (r: Result<string, ResolverError>)
      requires Valid()
      modifies this`strictHelper
      ensures Valid()
      ensures strictHelper == Some(old(strictHelper).GetOr(CreatePlaceholderHelper(false)))
      ensures r == replacer(strictHelper.value, text, properties)
    {
      if strictHelper.None? {
        strictHelper := Some(CreatePlaceholderHelper(false));
      }
      r := replacer(strictHelper.value, text, properties);
    }

    /** Nested values go through the lenient path when the flag is set and through the strict one otherwise. */
    method ResolveNestedPlaceholders(value: string) returns (r: Result<string, ResolverError>)
      requires Valid()
      modifies this`nonStrictHelper, this`strictHelper
      ensures Valid()
      ensures ignoreUnresolvableNestedPlaceholders ==>
        && strictHelper == old(strictHelper)
        && nonStrictHelper == Some(old(nonStrictHelper).GetOr(CreatePlaceholderHelper(true)))
        && r == replacer(nonStrictHelper.value, value, properties)
      ensures !ignoreUnresolvableNestedPlaceholders ==>
        && nonStrictHelper == old(nonStrictHelper)
        && strictHelper == Some(old(strictHelper).GetOr(CreatePlaceholderHelper(false)))
        && r == replacer(strictHelper.value, value, properties)
    {
      if ignoreUnresolvableNestedPlaceholders {
        r := ResolvePlaceholders(value);
      } else {
        r := ResolveRequiredPlaceholders(value);
      }
    }
  }

  /** Validation reads only: two calls in a row give the same outcome. */
  method ValidateTwice(p: PropertyResolver) returns (first: Option<ResolverError>, second: Option<ResolverError>)
    ensures first == second
    ensures first.None? <==> forall k :: k in p.requiredProperties ==> k in p.properties
  {
    first := p.ValidateRequiredProperties();
    second := p.ValidateRequiredProperties();
  }

  /**
   * Each helper is built once, with the settings current at its first use:
   * changing the prefix afterwards does not reach the lenient helper, but a
   * strict helper built later sees it.
   */
  method HelpersCapturedOnFirstUse(properties: map<string, string>, replacer: Replacer, text: string, prefix: string)
    returns (lenient: Option<PlaceholderHelper>, strict: Option<PlaceholderHelper>,
             first: Result<string, ResolverError>, second: Result<string, ResolverError>)
    ensures lenient == Some(PlaceholderHelper(DefaultPlaceholderPrefix, DefaultPlaceholderSuffix, DefaultValueSeparator, true))
    ensures strict == Some(PlaceholderHelper(prefix, DefaultPlaceholderSuffix, DefaultValueSeparator, false))
    ensures first == second
  {
    var p := new PropertyResolver(properties, replacer);
    first := p.ResolvePlaceholders(text);
    p.SetPlaceholderPrefix(prefix);
    second := p.ResolvePlaceholders(text);
    var r := p.ResolveRequiredPlaceholders(text);
    lenient, strict := p.nonStrictHelper, p.strictHelper;
  }

  /** With the flag at its default, nested placeholders are resolved strictly, with the default syntax. */
  method NestedDefaultsToStrict(properties: map<string, string>, replacer: Replacer, value: string)
    returns (r: Result<string, ResolverError>)
    ensures r == replacer(PlaceholderHelper(DefaultPlaceholderPrefix, DefaultPlaceholderSuffix, DefaultValueSeparator, false), value, properties)
  {
    var p := new PropertyResolver(properties, replacer);
    r := p.ResolveNestedPlaceholders(value);
  }
}

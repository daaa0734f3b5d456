/**
 * The two registrars behind @EnableConfigurationProperties. The import selector picks them;
 * the bean registrar registers one bean definition per class listed in the annotation's
 * `value`; the binding registrar registers the binding post-processor and its metadata store
 * once. The bean definition registry is a map from bean name to definition.
 */
module BeanRegistrars {
  import opened Wrappers
  import opened Throwables
  import opened Text

  const BEAN_REGISTRAR := "org.springframework.boot.context.properties.EnableConfigurationPropertiesImportSelector$ConfigurationPropertiesBeanRegistrar"
  const BINDING_REGISTRAR := "org.springframework.boot.context.properties.ConfigurationPropertiesBindingPostProcessorRegistrar"
  const BINDER_BEAN_NAME := "org.springframework.boot.context.properties.ConfigurationPropertiesBindingPostProcessor"
  const METADATA_BEAN_NAME := BINDER_BEAN_NAME + ".store"
  const METADATA_CLASS := "org.springframework.boot.context.properties.ConfigurationBeanFactoryMetaData"
  const METADATA_PROPERTY := "beanMetaDataStore"

  /** A generic bean definition: its bean class and its bean-reference properties. */
  datatype BeanDefinition = BeanDefinition(beanClass: string, references: map<string, string>)

  /**
   * A class named in the annotation, with the `prefix` of its @ConfigurationProperties
   * annotation, or None when it has no such annotation.
   */
  datatype TypeInfo = TypeInfo(name: string, prefix: Option<string>)

  /** An element of one of the annotation's `value` arrays. */
  datatype AttributeValue = ClassValue(t: TypeInfo) | VoidClass | OtherValue

  /**
   * selectImports: with no `value` (or an empty one) only the binding registrar; otherwise
   * the bean registrar followed by the binding registrar.
   */
  function SelectImports(value: Option<seq<AttributeValue>>): seq<string> {
    if value == None || value == Some([]) then [BINDING_REGISTRAR] else [BEAN_REGISTRAR, BINDING_REGISTRAR]
  }

  /** The binding registrar is always imported, last; the bean registrar exactly when classes are listed. */
  lemma SelectImportsSpec(value: Option<seq<AttributeValue>>)
    ensures |SelectImports(value)| > 0 && SelectImports(value)[|SelectImports(value)| - 1] == BINDING_REGISTRAR
    ensures BEAN_REGISTRAR in SelectImports(value) <==> value.Some? && value.value != []
    ensures BEAN_REGISTRAR in SelectImports(value) ==> SelectImports(value)[0] == BEAN_REGISTRAR
  {
    assert BEAN_REGISTRAR != BINDING_REGISTRAR by {
      assert |BEAN_REGISTRAR| != |BINDING_REGISTRAR|;
    }
  }

  // ---------------------------------------------------------------------------------------
  // The bean registrar

  /** The classes of one `value` array: Class values other than void.class, in order. */
  function ClassesOf(row: seq<AttributeValue>): (r: seq<TypeInfo>)
    decreases |row|
  {
    if row == [] then []
    else
      var rest := ClassesOf(row[..|row| - 1]);
      match row[|row| - 1]
      case ClassValue(t) => rest + [t]
      case _ => rest
  }

  /** collectClasses: the classes of every `value` array, arrays in order. */
  function Classes(list: seq<seq<AttributeValue>>): seq<TypeInfo>
    decreases |list|
  {
    if list == [] then [] else Classes(list[..|list| - 1]) + ClassesOf(list[|list| - 1])
  }

  /** A class is collected exactly when it is listed in one of the arrays. */
  lemma {:induction false} ClassesOfMembers(row: seq<AttributeValue>)
    ensures forall t :: t in ClassesOf(row) <==> ClassValue(t) in row
    decreases |row|
  {
    if row != [] {
      var init := row[..|row| - 1];
      ClassesOfMembers(init);
      assert row == init + [row[|row| - 1]];
      forall t ensures ClassValue(t) in row <==> ClassValue(t) in init || row[|row| - 1] == ClassValue(t) {
      }
    }
  }

  /** Across the arrays: the collected classes are exactly the listed ones. */
  lemma {:induction false} ClassesMembers(list: seq<seq<AttributeValue>>)
    ensures forall t :: t in Classes(list) <==> exists i :: 0 <= i < |list| && ClassValue(t) in list[i]
    decreases |list|
  {
    if list != [] {
      var init := list[..|list| - 1];
      ClassesMembers(init);
      ClassesOfMembers(list[|list| - 1]);
      forall t ensures (exists i :: 0 <= i < |list| && ClassValue(t) in list[i])
                   <==> (exists i :: 0 <= i < |init| && ClassValue(t) in init[i]) || ClassValue(t) in list[|list| - 1]
      {
        if exists i :: 0 <= i < |list| && ClassValue(t) in list[i] {
          var i :| 0 <= i < |list| && ClassValue(t) in list[i];
          if i < |init| { assert init[i] == list[i]; }
        }
        if exists i :: 0 <= i < |init| && ClassValue(t) in init[i] {
          var i :| 0 <= i < |init| && ClassValue(t) in init[i];
          assert list[i] == init[i];
        }
      }
    }
  }

  /** extractPrefix: the annotation's prefix, or "" when the class has no annotation. */
  function ExtractPrefix(t: TypeInfo): string {
    t.prefix.GetOr("")
  }

  /** The bean name: `prefix-className` when the prefix has text, the class name otherwise. */
  function BeanName(t: TypeInfo): string {
    var prefix := ExtractPrefix(t);
    if HasText(Some(prefix)) then prefix + "-" + t.name else t.name
  }

  /** The bean name always ends with the class name; it starts with `prefix-` exactly when the prefix has text. */
  lemma BeanNameSpec(t: TypeInfo)
    ensures EndsWith(BeanName(t), t.name)
    ensures HasText(Some(ExtractPrefix(t))) ==> StartsWith(BeanName(t), ExtractPrefix(t) + "-")
    ensures !HasText(Some(ExtractPrefix(t))) ==> BeanName(t) == t.name
    ensures t.prefix.None? ==> BeanName(t) == t.name
  {
    var prefix := ExtractPrefix(t);
    if HasText(Some(prefix)) {
      assert BeanName(t) == (prefix + "-") + t.name;
      StartsWithAppend(prefix + "-", t.name);
      assert BeanName(t)[|BeanName(t)| - |t.name|..] == t.name;
    } else {
      assert BeanName(t)[|BeanName(t)| - |t.name|..] == t.name;
    }
    if t.prefix.None? {
      assert !HasText(Some(""));
    }
  }

  /** The Assert.notNull failure for a class without @ConfigurationProperties. */
  function MissingAnnotation(t: TypeInfo): Throwable {
    NewIllegalArgument("No ConfigurationProperties annotation found on  '" + t.name + "'.")
  }

  /**
   * The registry after registerBeanDefinitions over `types`, and the error that stopped it:
   * a name already registered is skipped; a new one is registered first and only then is
   * the class checked for its annotation.
   */
  function RegisterAll(defs: map<string, BeanDefinition>, types: seq<TypeInfo>): (map<string, BeanDefinition>, Option<Throwable>)
    decreases |types|
  {
    if types == [] then (defs, None)
    else
      var t := types[0];
      var name := BeanName(t);
      if name in defs then RegisterAll(defs, types[1..])
      else
        var defs' := defs[name := BeanDefinition(t.name, map[])];
        if t.prefix.None? then (defs', Some(MissingAnnotation(t))) else RegisterAll(defs', types[1..])
  }

  /** Registration never replaces or removes a definition that was already there. */
  lemma {:induction false} RegisterAllKeeps(defs: map<string, BeanDefinition>, types: seq<TypeInfo>)
    ensures forall k :: k in defs ==> k in RegisterAll(defs, types).0 && RegisterAll(defs, types).0[k] == defs[k]
    decreases |types|
  {
    if types != [] {
      var t := types[0];
      var name := BeanName(t);
      if name in defs {
        RegisterAllKeeps(defs, types[1..]);
      } else if t.prefix.Some? {
        RegisterAllKeeps(defs[name := BeanDefinition(t.name, map[])], types[1..]);
      }
    }
  }

  /** Every new definition is the generic definition of one of the listed classes, under its bean name. */
  lemma {:induction false} RegisterAllAdds(defs: map<string, BeanDefinition>, types: seq<TypeInfo>)
    ensures forall k :: k in RegisterAll(defs, types).0 && k !in defs ==>
      exists t :: t in types && BeanName(t) == k && RegisterAll(defs, types).0[k] == BeanDefinition(t.name, map[])
    decreases |types|
  {
    if types != [] {
      var t := types[0];
      var name := BeanName(t);
      var result := RegisterAll(defs, types).0;
      if name in defs {
        RegisterAllAdds(defs, types[1..]);
        forall k | k in result && k !in defs
          ensures exists u :: u in types && BeanName(u) == k && result[k] == BeanDefinition(u.name, map[])
        {
          var u :| u in types[1..] && BeanName(u) == k && result[k] == BeanDefinition(u.name, map[]);
          assert u in types;
        }
      } else if t.prefix.Some? {
        var defs' := defs[name := BeanDefinition(t.name, map[])];
        RegisterAllAdds(defs', types[1..]);
        RegisterAllKeeps(defs', types[1..]);
        forall k | k in result && k !in defs
          ensures exists u :: u in types && BeanName(u) == k && result[k] == BeanDefinition(u.name, map[])
        {
          if k == name {
            assert name in defs' && result[k] == defs'[name];
            assert t in types && BeanName(t) == k && result[k] == BeanDefinition(t.name, map[]);
          } else {
            assert k !in defs';
            var u :| u in types[1..] && BeanName(u) == k && result[k] == BeanDefinition(u.name, map[]);
            assert u in types;
          }
        }
      } else {
        assert t in types;
      }
    }
  }

  /**
   * Without error every listed class has a definition under its bean name; an error names
   * a listed class without the annotation whose definition was nevertheless registered.
   */
  lemma {:induction false} RegisterAllOutcome(defs: map<string, BeanDefinition>, types: seq<TypeInfo>)
    ensures RegisterAll(defs, types).1.None? ==> forall t :: t in types ==> BeanName(t) in RegisterAll(defs, types).0
    ensures RegisterAll(defs, types).1.Some? ==>
      exists t :: t in types && t.prefix.None? && RegisterAll(defs, types).1 == Some(MissingAnnotation(t))
                  && BeanName(t) in RegisterAll(defs, types).0 && RegisterAll(defs, types).0[BeanName(t)] == BeanDefinition(t.name, map[])
    decreases |types|
  {
    if types != [] {
      var t := types[0];
      var name := BeanName(t);
      var next := if name in defs then defs else defs[name := BeanDefinition(t.name, map[])];
      if name in defs || t.prefix.Some? {
        RegisterAllOutcome(next, types[1..]);
        RegisterAllKeeps(next, types[1..]);
        var result := RegisterAll(defs, types);
        if result.1.None? {
          forall u | u in types ensures BeanName(u) in result.0 {
            if u != t { assert u in types[1..]; }
          }
        } else {
          var u :| u in types[1..] && u.prefix.None? && result.1 == Some(MissingAnnotation(u))
            && BeanName(u) in result.0 && result.0[BeanName(u)] == BeanDefinition(u.name, map[]);
          assert u in types;
        }
      } else {
        assert t in types;
      }
    }
  }

  /** When every listed class is annotated, registration raises nothing. */
  lemma {:induction false} RegisterAllAnnotated(defs: map<string, BeanDefinition>, types: seq<TypeInfo>)
    requires forall i :: 0 <= i < |types| ==> types[i].prefix.Some?
    ensures RegisterAll(defs, types).1.None?
    decreases |types|
  {
    if types != [] {
      var name := BeanName(types[0]);
      var next := if name in defs then defs else defs[name := BeanDefinition(types[0].name, map[])];
      RegisterAllAnnotated(next, types[1..]);
    }
  }

  /** BeanDefinitionRegistry, with bean-definition overriding allowed. */
  class Registry {
    var definitions: map<string, BeanDefinition>

    constructor(initial: map<string, BeanDefinition>)
      ensures definitions == initial
    {
      definitions := initial;
    }

    predicate ContainsBeanDefinition(name: string)
      reads this
    {
      name in definitions
    }

    /** registerBeanDefinition. */
    method RegisterBeanDefinition(name: string, definition: BeanDefinition)
      modifies this
      ensures definitions == old(definitions)[name := definition]
    {
      definitions := definitions[name := definition];
    }
  }

  /** collectClasses: a nested loop over the `value` arrays and their elements. */
  method CollectClasses(list: seq<seq<AttributeValue>>) returns (result: seq<TypeInfo>)
    ensures result == Classes(list)
  {
    result := [];
    for i := 0 to |list|
      invariant result == Classes(list[..i])
    {
      assert list[..i + 1][..i] == list[..i];
      var row := list[i];
      ghost var before := result;
      for j := 0 to |row|
        invariant result == before + ClassesOf(row[..j])
      {
        assert row[..j + 1][..j] == row[..j];
        match row[j] {
          case ClassValue(t) => result := result + [t];
          case VoidClass =>
          case OtherValue =>
        }
      }
      assert row[..|row|] == row;
    }
    assert list[..|list|] == list;
  }

  /**
   * ConfigurationPropertiesBeanRegistrar.registerBeanDefinitions. `values` is the
   * annotation's `value` attribute list (None: the attribute is missing, and iterating over
   * it fails).
   */
  method RegisterBeanDefinitions(registry: Registry, values: Option<seq<seq<AttributeValue>>>) returns (r: Option<Throwable>)
    modifies registry
    ensures values.None? ==> r == Some(NewNullPointer()) && registry.definitions == old(registry.definitions)
    ensures values.Some? ==> (registry.definitions, r) == RegisterAll(old(registry.definitions), Classes(values.value))
  {
    if values.None? {
      return Some(NewNullPointer());
    }
    var types := CollectClasses(values.value);
    var i := 0;
    while i < |types|
      invariant 0 <= i <= |types|
      invariant RegisterAll(old(registry.definitions), types) == RegisterAll(registry.definitions, types[i..])
    {
      assert types[i..][1..] == types[i + 1..];
      var t := types[i];
      var name := BeanName(t);
      if !registry.ContainsBeanDefinition(name) {
        registry.RegisterBeanDefinition(name, BeanDefinition(t.name, map[]));
        if t.prefix.None? {
          return Some(MissingAnnotation(t));
        }
      }
      i := i + 1;
    }
    return None;
  }

  // ---------------------------------------------------------------------------------------
  // The binding registrar

  /** The post-processor's definition: it references the metadata store bean. */
  const BINDER_DEFINITION := BeanDefinition(BINDER_BEAN_NAME, map[METADATA_PROPERTY := METADATA_BEAN_NAME])
  const METADATA_DEFINITION := BeanDefinition(METADATA_CLASS, map[])

  /** ConfigurationPropertiesBindingPostProcessorRegistrar.registerBeanDefinitions on the map. */
  function WithBinder(defs: map<string, BeanDefinition>): map<string, BeanDefinition> {
    if BINDER_BEAN_NAME in defs then defs
    else defs[BINDER_BEAN_NAME := BINDER_DEFINITION][METADATA_BEAN_NAME := METADATA_DEFINITION]
  }

  /**
   * After the registrar both beans are present and the binder refers to the store; when the
   * binder was absent both definitions are the registrar's; every other definition is kept.
   */
  lemma WithBinderSpec(defs: map<string, BeanDefinition>)
    ensures BINDER_BEAN_NAME in WithBinder(defs)
    ensures BINDER_BEAN_NAME !in defs ==>
      WithBinder(defs)[BINDER_BEAN_NAME].references[METADATA_PROPERTY] == METADATA_BEAN_NAME
      && METADATA_BEAN_NAME in WithBinder(defs)
      && WithBinder(defs)[METADATA_BEAN_NAME].beanClass == METADATA_CLASS
    ensures BINDER_BEAN_NAME in defs ==> WithBinder(defs) == defs
    ensures forall k :: k in defs && k != BINDER_BEAN_NAME && k != METADATA_BEAN_NAME ==> k in WithBinder(defs) && WithBinder(defs)[k] == defs[k]
    ensures forall k :: k in WithBinder(defs) ==> k in defs || k == BINDER_BEAN_NAME || k == METADATA_BEAN_NAME
  {
    assert METADATA_BEAN_NAME != BINDER_BEAN_NAME by {
      assert |METADATA_BEAN_NAME| != |BINDER_BEAN_NAME|;
    }
  }

  /** Running the registrar twice is the same as running it once. */
  lemma WithBinderIdempotent(defs: map<string, BeanDefinition>)
    ensures WithBinder(WithBinder(defs)) == WithBinder(defs)
  {
    WithBinderSpec(defs);
  }

  /** The registrar as it runs against the registry. */
  method RegisterBindingPostProcessor(registry: Registry)
    modifies registry
    ensures registry.definitions == WithBinder(old(registry.definitions))
  {
    if !registry.ContainsBeanDefinition(BINDER_BEAN_NAME) {
      registry.RegisterBeanDefinition(BINDER_BEAN_NAME, BINDER_DEFINITION);
      registry.RegisterBeanDefinition(METADATA_BEAN_NAME, METADATA_DEFINITION);
    }
  }
}

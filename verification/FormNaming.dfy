/** The names the form generator derives from the entity's relative class name
    (such as `Blog\Post`) and the target bundle's path and namespace: the form
    class name, the output file path, the entity sub-namespace and the
    `form_type_name` token. */
module FormNaming {
  import opened PhpStrings

  const Backslash: char := '\\'

  /** The entity class without its sub-namespace: the last `\`-separated
      segment (what `array_pop` takes off the exploded name). */
  function EntityClass(entity: string): (cls: string)
    ensures Backslash !in cls
    ensures Backslash !in entity ==> cls == entity
  {
    var parts := Explode(entity, Backslash);
    parts[|parts| - 1]
  }

  /** The segments of the entity's sub-namespace: every `\`-separated segment
      but the last. There are none exactly when the name has no `\`. */
  function EntityNamespaceParts(entity: string): (parts: seq<string>)
    ensures parts == [] <==> Backslash !in entity
    ensures forall i :: 0 <= i < |parts| ==> Backslash !in parts[i]
  {
    var all := Explode(entity, Backslash);
    all[..|all| - 1]
  }

  /** The form class name: the entity class followed by `Type`. */
  function FormClassName(entity: string): string {
    EntityClass(entity) + "Type"
  }

  /** The file the form class is written to: under the bundle's `Form`
      directory, the entity name with `\` turned into `/`, then `Type.php`. */
  function FormClassPath(bundlePath: string, entity: string): string {
    bundlePath + "/Form" + "/" + ReplaceChar(entity, Backslash, '/') + "Type.php"
  }

  /** The entity's sub-namespace, its segments joined with `\`. */
  function EntityNamespace(entity: string): string {
    Implode(EntityNamespaceParts(entity), [Backslash])
  }

  /** The `form_type_name` token: lower-cased, the bundle namespace with `\`
      turned into `_`, then `_` and the sub-namespace segments joined by `_`
      (only when there are some), then `_` and the form class name. */
  function FormTypeName(bundleNamespace: string, entity: string): string {
    var parts := EntityNamespaceParts(entity);
    StrToLower(ReplaceChar(bundleNamespace, Backslash, '_') + (if parts != [] then "_" else "")
               + Implode(parts, "_") + "_" + FormClassName(entity))
  }

  /** The exploded entity name is its sub-namespace segments followed by its class. */
  lemma EntitySegments(entity: string)
    ensures Explode(entity, Backslash) == EntityNamespaceParts(entity) + [EntityClass(entity)]
  {
    var all := Explode(entity, Backslash);
    assert all == all[..|all| - 1] + [all[|all| - 1]];
  }

  /** The form class name ends in `Type`, contains no `\`, and for an entity
      without sub-namespace is the entity name followed by `Type`. */
  lemma FormClassNameShape(entity: string)
    ensures |FormClassName(entity)| >= 4 && FormClassName(entity)[|FormClassName(entity)| - 4..] == "Type"
    ensures Backslash !in FormClassName(entity)
    ensures Backslash !in entity ==> FormClassName(entity) == entity + "Type"
  {
  }

  /** The entity name is its sub-namespace, a `\` and its class; an entity
      name without `\` has an empty sub-namespace and is its own class. */
  lemma EntityNamespaceRoundTrip(entity: string)
    ensures Backslash in entity ==> EntityNamespace(entity) + [Backslash] + EntityClass(entity) == entity
    ensures Backslash !in entity ==> EntityNamespace(entity) == "" && EntityClass(entity) == entity
  {
    EntitySegments(entity);
    ImplodeExplode(entity, Backslash);
    if Backslash in entity {
      ImplodeAppend(EntityNamespaceParts(entity), [EntityClass(entity)], [Backslash]);
    }
  }

  /** The sub-namespace is empty exactly when the name has no `\`, or has a
      single `\` in first position (`explode` then yields one empty segment
      before the class). For names that do not start with `\` this is: empty
      exactly when the name has no `\`. */
  lemma EntityNamespaceEmpty(entity: string)
    ensures EntityNamespace(entity) == "" <==>
              Backslash !in entity || (|entity| > 0 && entity[0] == Backslash && Backslash !in entity[1..])
    ensures (entity == "" || entity[0] != Backslash) ==>
              (EntityNamespace(entity) == "" <==> Backslash !in entity)
  {
    EntityNamespaceRoundTrip(entity);
    if Backslash in entity && EntityNamespace(entity) == "" {
      assert entity == [Backslash] + EntityClass(entity);
      assert entity[1..] == EntityClass(entity);
    }
    if Backslash in entity && entity[0] == Backslash && Backslash !in entity[1..] {
      assert entity == [] + [Backslash] + entity[1..];
      ExplodeAtFirst([], entity[1..], Backslash);
      EntitySegments(entity);
      assert EntityNamespaceParts(entity) == [[]];
    }
  }

  /** The class path is the bundle path, `/Form/`, the entity's segments
      joined with `/`, then `Type.php`. */
  lemma FormClassPathSegments(bundlePath: string, entity: string)
    ensures FormClassPath(bundlePath, entity) ==
              bundlePath + "/Form/" + Implode(EntityNamespaceParts(entity) + [EntityClass(entity)], "/") + "Type.php"
  {
    ReplaceIsImplodeExplode(entity, Backslash, '/');
    EntitySegments(entity);
  }

  /** For an entity without sub-namespace the class file sits directly in the
      bundle's `Form` directory. */
  lemma FormClassPathTopLevel(bundlePath: string, entity: string)
    requires Backslash !in entity
    ensures FormClassPath(bundlePath, entity) == bundlePath + "/Form/" + entity + "Type.php"
  {
    ReplaceAbsent(entity, Backslash, '/');
  }

  /** The class file is named after the form class. */
  lemma FormClassPathFile(bundlePath: string, entity: string)
    ensures var path := FormClassPath(bundlePath, entity);
            var file := "/" + FormClassName(entity) + ".php";
            |path| >= |file| && path[|path| - |file|..] == file
  {
    var parts := EntityNamespaceParts(entity);
    var cls := EntityClass(entity);
    var path := FormClassPath(bundlePath, entity);
    FormClassPathSegments(bundlePath, entity);
    ImplodeLast(parts, cls, "/");
    var front := if parts == [] then bundlePath + "/Form" else bundlePath + "/Form/" + Implode(parts, "/");
    var file := "/" + FormClassName(entity) + ".php";
    assert path == front + file;
  }

  /** Nothing after the bundle path in the class path contains a `\`. */
  lemma FormClassPathNoBackslash(bundlePath: string, entity: string)
    ensures var path := FormClassPath(bundlePath, entity);
            |path| >= |bundlePath| && Backslash !in path[|bundlePath|..]
  {
    var path := FormClassPath(bundlePath, entity);
    var rel := ReplaceChar(entity, Backslash, '/');
    assert path == bundlePath + ("/Form/" + rel + "Type.php");
    assert path[|bundlePath|..] == "/Form/" + rel + "Type.php";
  }

  /** Gluing a joined head, the optional middle segments and a last segment
      with `_` is joining all of them with `_`. */
  lemma JoinWithOptionalMiddle(head: seq<string>, middle: seq<string>, last: string)
    requires |head| >= 1
    ensures Implode(head, "_") + (if middle != [] then "_" else "") + Implode(middle, "_") + "_" + last
            == Implode(head + middle + [last], "_")
  {
    var h := Implode(head, "_");
    if middle == [] {
      assert head + middle + [last] == head + [last];
      ImplodeAppend(head, [last], "_");
      assert h + "" + "" + "_" + last == h + "_" + last;
    } else {
      var m := Implode(middle, "_");
      ImplodeAppend(middle, [last], "_");
      assert head + middle + [last] == head + (middle + [last]);
      ImplodeAppend(head, middle + [last], "_");
      assert h + "_" + m + "_" + last == h + "_" + (m + "_" + last);
    }
  }

  /** `form_type_name` is the lower-cased join with `_` of the bundle
      namespace's segments, the entity's sub-namespace segments and the form
      class name. */
  lemma FormTypeNameIsJoinedSegments(bundleNamespace: string, entity: string)
    ensures FormTypeName(bundleNamespace, entity) ==
              StrToLower(Implode(Explode(bundleNamespace, Backslash) + EntityNamespaceParts(entity)
                                 + [FormClassName(entity)], "_"))
  {
    ReplaceIsImplodeExplode(bundleNamespace, Backslash, '_');
    JoinWithOptionalMiddle(Explode(bundleNamespace, Backslash), EntityNamespaceParts(entity), FormClassName(entity));
  }

  /** `form_type_name` contains no `\` and no upper-case letter (lowering it
      again changes nothing), and ends with `_` and the lower-cased form class
      name. */
  lemma FormTypeNameShape(bundleNamespace: string, entity: string)
    ensures Backslash !in FormTypeName(bundleNamespace, entity)
    ensures forall i :: 0 <= i < |FormTypeName(bundleNamespace, entity)| ==>
              !IsUpper(FormTypeName(bundleNamespace, entity)[i])
    ensures StrToLower(FormTypeName(bundleNamespace, entity)) == FormTypeName(bundleNamespace, entity)
    ensures var name := FormTypeName(bundleNamespace, entity);
            var tail := "_" + StrToLower(FormClassName(entity));
            |name| >= |tail| && name[|name| - |tail|..] == tail
  {
    var parts := EntityNamespaceParts(entity);
    var cls := FormClassName(entity);
    var head := ReplaceChar(bundleNamespace, Backslash, '_') + (if parts != [] then "_" else "")
                + Implode(parts, "_");
    assert head + "_" + cls == head + ("_" + cls);
    StrToLowerAppend(head, "_" + cls);
    StrToLowerAppend("_", cls);
    ImplodeAvoids(parts, "_", Backslash);
    FormClassNameShape(entity);
    assert Backslash !in head + "_" + cls;
    StrToLowerKeepsNonLetter(head + "_" + cls, Backslash);
    StrToLowerIdempotent(head + "_" + cls);
  }
}

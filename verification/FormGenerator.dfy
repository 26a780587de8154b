/** The Doctrine form generator: it derives the form class name and file path
    for an entity, refuses when that file already exists or the entity has a
    composite key, and otherwise hands the form template its render context. */
module FormGenerator {
  import opened PhpStrings
  import opened Metadata
  import opened FormNaming

  /** A bundle as the generator sees it: its directory and its namespace. */
  datatype Bundle = Bundle(path: string, namespace: string)

  datatype Option<T> = None | Some(value: T)

  datatype Result<T, E> = Success(value: T) | Failure(error: E)

  /** Why `generate` did not render. */
  datatype GenerateError =
    | FormAlreadyExists(formClass: string, classPath: string)
    | MultiplePrimaryKeys
      /** The entity bundle was never set, or set to null: reading its
          namespace for the render context fails. */
    | EntityBundleMissing

  /** The variables handed to the form template. */
  datatype RenderContext = RenderContext(
    dir: string,
    fields: seq<string>,
    namespace: string,
    entityBundle: string,
    entityNamespace: string,
    entityClass: string,
    formClass: string,
    formTypeName: string)

  /** One rendering of a template: the skeleton directory, the template, the
      file it is written to and its variables. */
  datatype Rendering = Rendering(skeletonDir: string, template: string, target: string, context: RenderContext)

  const FormTemplate: string := "FormType.php"

  /** What one `generate` call produces: the existence check comes first, then
      the composite-key check, then the render context is built (which needs
      the entity bundle). `existing` is the set of paths that exist on disk. */
  function FormGeneration(skeletonDir: string, entityBundle: Option<Bundle>, bundle: Bundle,
                          entity: string, metadata: ClassMetadata, existing: set<string>)
    : (r: Result<Rendering, GenerateError>)
    ensures FormClassPath(bundle.path, entity) in existing ==>
              r == Failure(FormAlreadyExists(FormClassName(entity), FormClassPath(bundle.path, entity)))
    ensures FormClassPath(bundle.path, entity) !in existing && |metadata.identifier| > 1 ==>
              r == Failure(MultiplePrimaryKeys)
    ensures r.Success? <==>
              FormClassPath(bundle.path, entity) !in existing && |metadata.identifier| <= 1 && entityBundle.Some?
    ensures r.Success? ==>
              r.value.template == FormTemplate &&
              r.value.target == FormClassPath(bundle.path, entity) &&
              r.value.skeletonDir == skeletonDir &&
              r.value.context.dir == skeletonDir &&
              r.value.context.fields == FormFields(metadata) &&
              r.value.context.namespace == bundle.namespace &&
              r.value.context.entityBundle == entityBundle.value.namespace &&
              r.value.context.entityNamespace == EntityNamespace(entity) &&
              r.value.context.entityClass == EntityClass(entity) &&
              r.value.context.formClass == FormClassName(entity) &&
              r.value.context.formClass == r.value.context.entityClass + "Type" &&
              r.value.context.formTypeName == FormTypeName(bundle.namespace, entity) &&
              r.value.context.formTypeName ==
                StrToLower(Implode(Explode(bundle.namespace, Backslash) + EntityNamespaceParts(entity)
                                   + [FormClassName(entity)], "_"))
  {
    var classPath := FormClassPath(bundle.path, entity);
    if classPath in existing then
      Failure(FormAlreadyExists(FormClassName(entity), classPath))
    else if |metadata.identifier| > 1 then
      Failure(MultiplePrimaryKeys)
    else if entityBundle.None? then
      Failure(EntityBundleMissing)
    else
      FormTypeNameIsJoinedSegments(bundle.namespace, entity);
      Success(Rendering(skeletonDir, FormTemplate, classPath, RenderContext(
        skeletonDir,
        FormFields(metadata),
        bundle.namespace,
        entityBundle.value.namespace,
        EntityNamespace(entity),
        EntityClass(entity),
        FormClassName(entity),
        FormTypeName(bundle.namespace, entity))))
  }

  /** The generator object. `className` and `classPath` are null until the
      first `generate` call and keep the last call's values afterwards, even
      when that call refused. */
  class DoctrineFormGenerator {
    const skeletonDir: string
    var className: Option<string>
    var classPath: Option<string>
    var entityBundle: Option<Bundle>

    constructor (skeletonDir: string)
      ensures this.skeletonDir == skeletonDir
      ensures className == None && classPath == None && entityBundle == None
    {
      this.skeletonDir := skeletonDir;
      className := None;
      classPath := None;
      entityBundle := None;
    }

    /** The form class name set by the last `generate` call (none before any). */
    method GetClassName() returns (name: Option<string>)
      ensures name == className
    {
      name := className;
    }

    /** The form class path set by the last `generate` call (none before any). */
    method GetClassPath() returns (path: Option<string>)
      ensures path == classPath
    {
      path := classPath;
    }

    /** Sets (or, with `None`, clears) the bundle the entity belongs to and
        returns the generator itself, for chaining. */
    method SetEntityBundle(b: Option<Bundle>) returns (self: DoctrineFormGenerator)
      modifies this`entityBundle
      ensures entityBundle == b && self == this
    {
      entityBundle := b;
      self := this;
    }

    /** The form's fields: the column field names, without the identifier
        fields unless the identifier is natural, then every association that is
        not one-to-many, appended one at a time in mapping order. */
    method GetFieldsFromMetadata(metadata: ClassMetadata) returns (fields: seq<string>)
      ensures fields == FormFields(metadata)
    {
      fields := metadata.fieldNames;
      if !metadata.identifierNatural {
        fields := ArrayDiff(fields, metadata.identifier);
      }
      var assocs := metadata.associations;
      var i := 0;
      while i < |assocs|
        invariant 0 <= i <= |assocs|
        invariant fields == ColumnFields(metadata) + KeptAssociationNames(assocs[..i])
      {
        assert assocs[..i + 1][..i] == assocs[..i];
        if assocs[i].kind != OneToMany {
          fields := fields + [assocs[i].fieldName];
        }
        i := i + 1;
      }
      assert assocs[..i] == assocs;
    }

    /** Generates the form class for `entity` into `bundle` unless the class
        file already exists (`existing` holds the paths that do). The class
        name and path are stored before either check, so they stay readable
        after a refusal; a refusal renders nothing. */
    method Generate(bundle: Bundle, entity: string, metadata: ClassMetadata, existing: set<string>)
      returns (result: Result<Rendering, GenerateError>)
      modifies this`className, this`classPath
      ensures className == Some(FormClassName(entity))
      ensures classPath == Some(FormClassPath(bundle.path, entity))
      ensures result == FormGeneration(skeletonDir, entityBundle, bundle, entity, metadata, existing)
    {
      var parts := Explode(entity, Backslash);
      var entityClass := parts[|parts| - 1];
      parts := parts[..|parts| - 1];

      className := Some(entityClass + "Type");
      var dirPath := bundle.path + "/Form";
      classPath := Some(dirPath + "/" + ReplaceChar(entity, Backslash, '/') + "Type.php");

      if classPath.value in existing {
        return Failure(FormAlreadyExists(className.value, classPath.value));
      }
      if |metadata.identifier| > 1 {
        return Failure(MultiplePrimaryKeys);
      }

      var fields := GetFieldsFromMetadata(metadata);
      if entityBundle.None? {
        return Failure(EntityBundleMissing);
      }
      var context := RenderContext(
        skeletonDir,
        fields,
        bundle.namespace,
        entityBundle.value.namespace,
        Implode(parts, [Backslash]),
        entityClass,
        className.value,
        StrToLower(ReplaceChar(bundle.namespace, Backslash, '_') + (if parts != [] then "_" else "")
                   + Implode(parts, "_") + "_" + className.value));
      result := Success(Rendering(skeletonDir, FormTemplate, classPath.value, context));
    }
  }
}

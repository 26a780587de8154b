# Doctrine form generator — Dafny model

This project models the form generator of the FourChimps CRUD generator
bundle, `Generator/DoctrineFormGenerator.php`. Given a target bundle, the
entity's relative class name (such as `Blog\Post`) and the entity's Doctrine
metadata, the generator:

- derives the form class name (`PostType`), the file it writes
  (`<bundle path>/Form/Blog/PostType.php`), the entity sub-namespace (`Blog`)
  and the lower-case `form_type_name` token
  (`acme_adminbundle_blog_posttype`);
- refuses when that file already exists, and otherwise refuses an entity with
  a composite primary key;
- otherwise hands the `FormType.php` template a render context whose `fields`
  are the column fields (without a generated identifier) followed by every
  association that is not one-to-many.

Modules, one per concern:

- `PhpStrings` (`PhpStrings.dfy`): the PHP primitives the generator is
  written with. These are `explode` and `implode` with a one-character
  separator, a one-character `str_replace` and ASCII `strtolower`. Round trips
  between `explode` and `implode` are proved, and so is the fact that
  `str_replace` equals `implode` after `explode`.
- `Metadata` (`Metadata.dfy`): the metadata the generator reads, `array_diff`,
  and the specification `FormFields` of the field list, with its properties.
- `FormNaming` (`FormNaming.dfy`): the name, path, sub-namespace and token
  derivations as functions, with lemmas about their shape.
- `FormGenerator` (`FormGenerator.dfy`): the `DoctrineFormGenerator` class.
  Its fields `className`, `classPath` and `entityBundle` are updated in place.
  `Generate` and `GetFieldsFromMetadata` are imperative methods proved against
  the specification functions `FormGeneration` and `FormFields`.
- `FormExamples` (`Examples.dfy`): concrete entities worked out on the model.

All functions are deterministic by construction. Identical metadata and names
always give identical field lists, paths and tokens.

Two properties are stated more precisely than one might expect, because the
code does not support the simpler form:

- An identifier field can reappear in the field list when it is also the name
  of a kept association (a derived identity). The code removes identifiers
  only from the column fields and appends associations afterwards.
  `GeneratedIdentifierExcluded` states exactly that. When no association is an
  identifier, no identifier field appears at all.
- The sub-namespace is empty exactly when the entity name has no `\`, provided
  the name does not begin with `\`. For `\Post`, `explode` yields one empty
  segment, so the sub-namespace is empty although the name contains a `\`.
  In that case `form_type_name` still gets the extra `_`, because the code
  tests the segment array, not the joined string. `EntityNamespaceEmpty`
  states both forms.

The code also checks for an existing file before the composite-key check.
It reports the existing file even for a composite key, and the model follows
that order.

## Model

| member | source | states |
|---|---|---|
| `PhpStrings.StrToLower` | Generator/DoctrineFormGenerator.php:77 | `strtolower`: the same length, every upper-case ASCII letter lowered, every other character kept, and no upper-case letter left |
| `PhpStrings.StrToLowerAppend` | Generator/DoctrineFormGenerator.php:77 | lowering distributes over concatenation |
| `PhpStrings.StrToLowerIdempotent` | Generator/DoctrineFormGenerator.php:77 | lowering twice is lowering once |
| `PhpStrings.StrToLowerKeepsNonLetter` | Generator/DoctrineFormGenerator.php:77 | a non-letter (such as `\`) occurs in the lowered string exactly when it occurs in the original |
| `PhpStrings.ReplaceChar` | Generator/DoctrineFormGenerator.php:56 | `str_replace` of one character: same length, each `from` becomes `to`, everything else kept, no `from` left when `from != to` |
| `PhpStrings.ReplaceAbsent` | Generator/DoctrineFormGenerator.php:56 | replacing a character that does not occur leaves the string unchanged |
| `PhpStrings.Explode` | Generator/DoctrineFormGenerator.php:51 | `explode`: at least one piece (one empty piece for an empty string); no piece contains the separator; exactly one piece, the string itself, iff the separator is absent |
| `PhpStrings.ImplodeAppend` | Generator/DoctrineFormGenerator.php:74 | `implode` of a concatenation is the two implodes joined by one glue |
| `PhpStrings.ImplodeLast` | Generator/DoctrineFormGenerator.php:77 | `implode` with one more last part appends the glue and that part, or gives just the part when there were none |
| `PhpStrings.ImplodePrefixFirst` | Generator/DoctrineFormGenerator.php:74 | prefixing the first part prefixes the imploded string |
| `PhpStrings.ImplodeAvoids` | Generator/DoctrineFormGenerator.php:77 | a character absent from every part and from the glue is absent from the result |
| `PhpStrings.ReplaceIsImplodeExplode` | Generator/DoctrineFormGenerator.php:56 | replacing `from` by `to` equals exploding at `from` and imploding with `to` |
| `PhpStrings.ImplodeExplode` | Generator/DoctrineFormGenerator.php:51 | round trip: imploding the exploded pieces with the separator restores the string |
| `PhpStrings.ExplodeAtFirst` | Generator/DoctrineFormGenerator.php:51 | exploding at the first separator splits off the piece before it |
| `PhpStrings.ExplodeImplode` | Generator/DoctrineFormGenerator.php:66-67 | round trip: separator-free pieces are recovered by exploding their implode |
| `Metadata.ArrayDiff` | Generator/DoctrineFormGenerator.php:94 | `array_diff`: an element is kept iff it is in the input and not in the removed list; never longer than the input |
| `Metadata.ArrayDiffAppend` | Generator/DoctrineFormGenerator.php:94 | `array_diff` keeps the input's order: it filters each half of a concatenation separately |
| `Metadata.ArrayDiffKeepsAll` | Generator/DoctrineFormGenerator.php:94 | `array_diff` changes nothing when no element is removed |
| `Metadata.KeptAssociationNames` | Generator/DoctrineFormGenerator.php:97-101 | a name is appended iff some association with that name is not one-to-many; at most one name per association |
| `Metadata.KeptAssociationNamesAppend` | Generator/DoctrineFormGenerator.php:97-101 | associations are appended in mapping order: earlier mappings' names come first |
| `Metadata.NaturalIdentifierKeepsColumns` | Generator/DoctrineFormGenerator.php:90-95 | with a natural identifier every declared column is kept, in declared order, ahead of the kept association names |
| `Metadata.GeneratedIdentifierExcluded` | Generator/DoctrineFormGenerator.php:92-95 | with a generated identifier no identifier field is among the column fields; an identifier name in the result is always a kept association name; with no association named like an identifier, no identifier appears |
| `Metadata.GeneratedIdentifierKeepsOthers` | Generator/DoctrineFormGenerator.php:90-95 | with a generated identifier every non-identifier column is kept, and the columns are unchanged when none is an identifier |
| `Metadata.AssociationsAfterColumns` | Generator/DoctrineFormGenerator.php:88-104 | the result starts with the column fields; after them every non-one-to-many association name appears, and only such names |
| `Metadata.OneToManyNeverAppended` | Generator/DoctrineFormGenerator.php:97-101 | a name carried only by one-to-many associations, and not a column, never appears in the result |
| `Metadata.FormFieldsBounded` | Generator/DoctrineFormGenerator.php:88-104 | the result has no more entries than the column fields and the associations together, each a column or an association name |
| `FormNaming.EntityClass` | Generator/DoctrineFormGenerator.php:51-52 | the entity class contains no `\` and is the whole name when the name has no `\` |
| `FormNaming.EntityNamespaceParts` | Generator/DoctrineFormGenerator.php:66-67 | the sub-namespace segments contain no `\` and are empty iff the name has no `\` |
| `FormNaming.EntitySegments` | Generator/DoctrineFormGenerator.php:51-52 | the exploded name is the sub-namespace segments followed by the class |
| `FormNaming.FormClassNameShape` | Generator/DoctrineFormGenerator.php:54 | the form class ends in `Type`, has no `\`, and is the entity name plus `Type` for a top-level entity |
| `FormNaming.EntityNamespaceRoundTrip` | Generator/DoctrineFormGenerator.php:66-75 | the entity name is its sub-namespace, `\` and its class; without `\` the sub-namespace is empty and the class is the name |
| `FormNaming.EntityNamespaceEmpty` | Generator/DoctrineFormGenerator.php:74 | the sub-namespace is empty iff the name has no `\` or only a leading one; for names not starting with `\`, iff the name has no `\` |
| `FormNaming.FormClassPathSegments` | Generator/DoctrineFormGenerator.php:55-56 | the class path is the bundle path, `/Form/`, the entity's segments joined with `/`, and `Type.php` |
| `FormNaming.FormClassPathTopLevel` | Generator/DoctrineFormGenerator.php:55-56 | a top-level entity's form file sits directly in the bundle's `Form` directory |
| `FormNaming.FormClassPathFile` | Generator/DoctrineFormGenerator.php:54-56 | the class path ends with `/`, the form class name and `.php` |
| `FormNaming.FormClassPathNoBackslash` | Generator/DoctrineFormGenerator.php:56 | nothing after the bundle path contains a `\` |
| `FormNaming.JoinWithOptionalMiddle` | Generator/DoctrineFormGenerator.php:77 | the token's conditional `_` makes head, optional middle segments and last segment one `_`-join |
| `FormNaming.FormTypeNameIsJoinedSegments` | Generator/DoctrineFormGenerator.php:77 | `form_type_name` is the lower-cased `_`-join of the bundle namespace's segments, the sub-namespace segments and the form class name |
| `FormNaming.FormTypeNameShape` | Generator/DoctrineFormGenerator.php:77 | `form_type_name` has no `\`, no upper-case letter (lowering it again changes nothing), and ends with `_` and the lower-cased form class name |
| `FormGenerator.FormGeneration` | Generator/DoctrineFormGenerator.php:51-78 | an existing class file gives the already-exists error even for a composite key; otherwise more than one identifier gives the multiple-primary-keys error; it renders iff neither holds and the entity bundle is set, and then renders `FormType.php` from the skeleton directory to the class path, with `dir` the skeleton directory, the field list, the bundle namespace, the entity bundle's namespace, the entity sub-namespace, the entity class, the form class (entity class plus `Type`) and the token (the lower-cased `_`-join of bundle-namespace segments, sub-namespace segments and form class) |
| `FormGenerator.DoctrineFormGenerator.constructor` | Generator/DoctrineFormGenerator.php:20-24 | stores the skeleton directory; class name, class path and entity bundle start unset |
| `FormGenerator.DoctrineFormGenerator.GetClassName` | Generator/DoctrineFormGenerator.php:26-29 | returns the class name stored by the last `generate` (unset before any) |
| `FormGenerator.DoctrineFormGenerator.GetClassPath` | Generator/DoctrineFormGenerator.php:31-34 | returns the class path stored by the last `generate` (unset before any) |
| `FormGenerator.DoctrineFormGenerator.SetEntityBundle` | Generator/DoctrineFormGenerator.php:36-40 | sets the entity bundle (possibly to null) and returns the generator itself |
| `FormGenerator.DoctrineFormGenerator.GetFieldsFromMetadata` | Generator/DoctrineFormGenerator.php:88-104 | the loop builds exactly `FormFields`: the filtered column fields followed by the kept association names |
| `FormGenerator.DoctrineFormGenerator.Generate` | Generator/DoctrineFormGenerator.php:49-79 | stores the class name and path before either check, so they survive a refusal; the result is `FormGeneration` of the inputs |
| `FormExamples.ArticleFields` | Generator/DoctrineFormGenerator.php:90-95 | `Article` with generated `id` and columns `id`, `title`, `body` gets the fields `title`, `body` |
| `FormExamples.ArticleClass` | Generator/DoctrineFormGenerator.php:51-54 | the `Article` form class is `ArticleType` and its sub-namespace is empty |
| `FormExamples.ArticleToken` | Generator/DoctrineFormGenerator.php:77 | the `Article` form in the `Admin` bundle has the token `admin_articletype` |
| `FormExamples.OrderFields` | Generator/DoctrineFormGenerator.php:88-104 | `Order` with natural identifier `sku` keeps `sku`, drops its one-to-many `lines` and appends its many-to-one `customer` |

## Left out

- `Command/CrudGeneratorBundleCrudCommand.php` is not part of this model. It holds the console prompts, the service lookups and the output. The command swallows the exception of a failed bundle lookup and may pass a null entity bundle to `setEntityBundle`. The model accepts `None` there, and `generate` then fails with `EntityBundleMissing` once both checks have passed.
- `Resources/skeleton/crud/actions/index.php` is not part of this model. It is a template rendered by an external engine.
- `file_exists` is modelled as membership in the set `existing` of paths passed to `Generate`.
- `renderFile` is modelled as the returned `Rendering` record (skeleton directory, template, target path, context). Writing the file, and the filesystem object the constructor receives, are not modelled.
- `FormGenerator.DoctrineFormGenerator.Generate`: the two `RuntimeException`s and the null dereference are returned as `Failure` values rather than thrown. The null dereference is a PHP `Error`, not a `RuntimeException`, so the command's `catch` would not stop it. The model does not capture that difference.
- The exception messages are not modelled as text. Each `GenerateError` carries the values its message is formatted from: the form class name and the class path for the already-exists refusal.
- `isIdentifierNatural()` is taken as an input boolean. How Doctrine computes it is not modelled.
- `associationMappings` is modelled as a sequence of (name, kind) pairs in mapping order. The model does not require the names to be distinct, as the keys of a PHP map are.
- The kind test is modelled as a comparison of `RelationKind` values. Doctrine's integer constants are not modelled.
- The PHP arrays are modelled as sequences of their values. The keys that `array_diff` preserves, and the gaps it leaves, are not modelled.
- `PhpStrings.StrToLower` lowers ASCII letters only. Locale-dependent lowering of other characters is not modelled.
- The behaviour inherited from the Sensio base generator class is not modelled beyond `renderFile`.
- Concrete examples whose entity names contain `\` are not worked out. Concrete string computation over such literals is too costly for the verifier. `FormTypeNameIsJoinedSegments`, `FormClassPathSegments` and `EntityNamespaceRoundTrip` state those cases for all inputs.

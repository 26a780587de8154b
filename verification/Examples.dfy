/** Concrete generations, worked out on the model. Each fact about a concrete
    name is proved in a lemma of its own and the examples combine them. */
module FormExamples {
  import opened PhpStrings
  import opened Metadata
  import opened FormNaming

  /** Lower-casing checked character by character. */
  lemma LowersTo(s: string, t: string)
    requires |s| == |t| && forall i :: 0 <= i < |s| ==> LowerChar(s[i]) == t[i]
    ensures StrToLower(s) == t
  {
  }

  /** An `Article` entity with a generated `id` and columns `title` and
      `body`: the identifier is dropped and the declared order kept. */
  lemma ArticleFields()
    ensures FormFields(ClassMetadata(["id", "title", "body"], ["id"], false, [])) == ["title", "body"]
  {
    assert ArrayDiff(["body"], ["id"]) == ["body"];
    assert ArrayDiff(["title", "body"], ["id"]) == ["title", "body"];
  }

  /** The `Article` form is `ArticleType` and has no sub-namespace. */
  lemma ArticleClass()
    ensures FormClassName("Article") == "ArticleType"
    ensures EntityNamespace("Article") == ""
  {
  }

  /** One step of `ArticleToken`: the segments joined into the token. The
      names are passed as parameters bound by the precondition rather than
      written inline, which keeps the proof small. */
  lemma ArticleTokenSegments(ns: string, entity: string)
    requires ns == "Admin" && entity == "Article"
    ensures Explode(ns, Backslash) + EntityNamespaceParts(entity) + [FormClassName(entity)] == ["Admin", "ArticleType"]
  {
    assert Explode(ns, Backslash) == [ns];
    assert EntityNamespaceParts(entity) == [];
    assert FormClassName(entity) == "ArticleType";
  }

  /** One step of `ArticleToken`: lower-casing the joined segments. */
  lemma ArticleTokenLowered()
    ensures StrToLower(Implode(["Admin", "ArticleType"], "_")) == "admin_articletype"
  {
    assert Implode(["Admin", "ArticleType"], "_") == "Admin_ArticleType";
    LowersTo("Admin_ArticleType", "admin_articletype");
  }

  /** The `Article` form generated into the `Admin` bundle has the token
      `admin_articletype`. */
  lemma ArticleToken()
    ensures FormTypeName("Admin", "Article") == "admin_articletype"
  {
    FormTypeNameIsJoinedSegments("Admin", "Article");
    ArticleTokenSegments("Admin", "Article");
    ArticleTokenLowered();
  }

  /** An `Order` entity whose natural identifier is `sku` keeps `sku`; its
      one-to-many `lines` association is left out, its many-to-one `customer`
      association is appended. */
  lemma OrderFields()
    ensures FormFields(ClassMetadata(["sku"], ["sku"], true,
                                     [Association("lines", OneToMany), Association("customer", ManyToOne)]))
            == ["sku", "customer"]
  {
    var assocs := [Association("lines", OneToMany), Association("customer", ManyToOne)];
    assert assocs[..1] == [Association("lines", OneToMany)];
    assert KeptAssociationNames(assocs[..1]) == [];
  }
}

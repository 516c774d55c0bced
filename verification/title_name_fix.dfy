/**
 `TitleNameFixer.apply_fixes`: three passes over the detected issues, each
 loading the named doctype, rewriting it and counting the fixes. The
 doctype store is a map from doctype name to metadata (`frappe.get_doc`);
 a name missing from it is the load failure that the pass records as an
 error before moving on. Saving a rewritten doctype always succeeds here.
 */
module TitleNameFix {
  import opened Frappe
  import opened TitleNameText
  import opened TitleNameDetect

  type Db = map<string, DocTypeMeta>

  datatype FixKind = DocumentTypeFix | LinkFieldFix | NamingSeriesFix

  /** A fix whose doctype could not be loaded; `field` is set for link fixes only. */
  datatype FixError = FixError(kind: FixKind, doctype: string, field: string)

  /** The state a pass hands on: the store, the pass's counter and its errors. */
  datatype Pass = Pass(db: Db, fixes: nat, errors: seq<FixError>)

  /** Position of the first field satisfying `p`: the `for ... break` search. */
  function FirstIndex(fields: seq<FieldMeta>, p: FieldMeta -> bool): (r: Option<nat>)
    ensures r.Some? ==> r.value < |fields| && p(fields[r.value]) && forall j :: 0 <= j < r.value ==> !p(fields[j])
    ensures r.None? ==> forall j :: 0 <= j < |fields| ==> !p(fields[j])
  {
    if |fields| == 0 then None
    else if p(fields[0]) then Some(0)
    else
      match FirstIndex(fields[1..], p)
      case None => None
      case Some(j) => Some(j + 1)
  }

  /** No two fields of a doctype share a fieldname, as Frappe enforces. */
  predicate UniqueFieldnames(doc: DocTypeMeta) {
    forall a, b :: 0 <= a < b < |doc.fields| ==> doc.fields[a].fieldname != doc.fields[b].fieldname
  }

  predicate AllUniqueFieldnames(db: Db) {
    forall k :: k in db ==> UniqueFieldnames(db[k])
  }

  /** The relation lifted to doctypes: same fields in the same order, each related to its counterpart. */
  lemma UniqueFieldnamesTransfer(a: DocTypeMeta, b: DocTypeMeta)
    requires UniqueFieldnames(a) && |b.fields| == |a.fields|
    requires forall j :: 0 <= j < |a.fields| ==> b.fields[j].fieldname == a.fields[j].fieldname
    ensures UniqueFieldnames(b)
  {
    forall x, y | 0 <= x < y < |b.fields|
      ensures b.fields[x].fieldname != b.fields[y].fieldname
    {
      assert a.fields[x].fieldname != a.fields[y].fieldname;
    }
  }

  // ---------------------------------------------------------------------
  // What each pass may change
  // ---------------------------------------------------------------------

  /** `g` is `f`, or `f` with a new link target that holds no space. */
  predicate OptionRewritten(f: FieldMeta, g: FieldMeta) {
    g == f || (g == f.(options := g.options) && ' ' !in g.options)
  }

  /** `g` is `f`, or `f` with its unique flag cleared. */
  predicate UniqueCleared(f: FieldMeta, g: FieldMeta) {
    g == f || g == f.(unique := 0)
  }

  /** `b` is `a` apart from its fields, which correspond one to one, each `OptionRewritten`. */
  predicate DocOptionsRewritten(a: DocTypeMeta, b: DocTypeMeta) {
    && b.(fields := a.fields) == a
    && |b.fields| == |a.fields|
    && forall j :: 0 <= j < |a.fields| ==> OptionRewritten(a.fields[j], b.fields[j])
  }

  /** `b` is `a` apart from its fields, which correspond one to one, each `UniqueCleared`. */
  predicate DocUniqueCleared(a: DocTypeMeta, b: DocTypeMeta) {
    && b.(fields := a.fields) == a
    && |b.fields| == |a.fields|
    && forall j :: 0 <= j < |a.fields| ==> UniqueCleared(a.fields[j], b.fields[j])
  }

  /** `b` is the doctype `a` stored under `name`, or `a` with its proper name as document type. */
  predicate DocTypeRenamed(name: string, a: DocTypeMeta, b: DocTypeMeta) {
    b == a || b == a.(documentType := ProperName(name))
  }

  /** `b` is `a` with some doctypes' document type set to their proper name. */
  predicate DocTypeChangesOnly(a: Db, b: Db) {
    a.Keys == b.Keys && forall k :: k in a ==> DocTypeRenamed(k, a[k], b[k])
  }

  /** `b` is `a` with some fields' link targets replaced by space-free ones. */
  predicate OptionChangesOnly(a: Db, b: Db) {
    a.Keys == b.Keys && forall k :: k in a ==> DocOptionsRewritten(a[k], b[k])
  }

  /** `b` is `a` with some fields' unique flag cleared. */
  predicate UniqueChangesOnly(a: Db, b: Db) {
    a.Keys == b.Keys && forall k :: k in a ==> DocUniqueCleared(a[k], b[k])
  }

  lemma DocTypeChangesTransitive(a: Db, b: Db, c: Db)
    requires DocTypeChangesOnly(a, b) && DocTypeChangesOnly(b, c)
    ensures DocTypeChangesOnly(a, c)
  {
    forall k | k in a
      ensures DocTypeRenamed(k, a[k], c[k])
    {
      assert DocTypeRenamed(k, a[k], b[k]) && DocTypeRenamed(k, b[k], c[k]);
    }
  }

  lemma DocOptionsTransitive(a: DocTypeMeta, b: DocTypeMeta, c: DocTypeMeta)
    requires DocOptionsRewritten(a, b) && DocOptionsRewritten(b, c)
    ensures DocOptionsRewritten(a, c)
  {
    assert c.(fields := a.fields) == b.(fields := a.fields);
    forall j | 0 <= j < |a.fields|
      ensures OptionRewritten(a.fields[j], c.fields[j])
    {
      assert OptionRewritten(a.fields[j], b.fields[j]) && OptionRewritten(b.fields[j], c.fields[j]);
    }
  }

  lemma OptionChangesTransitive(a: Db, b: Db, c: Db)
    requires OptionChangesOnly(a, b) && OptionChangesOnly(b, c)
    ensures OptionChangesOnly(a, c)
  {
    forall k | k in a
      ensures DocOptionsRewritten(a[k], c[k])
    {
      DocOptionsTransitive(a[k], b[k], c[k]);
    }
  }

  lemma DocUniqueTransitive(a: DocTypeMeta, b: DocTypeMeta, c: DocTypeMeta)
    requires DocUniqueCleared(a, b) && DocUniqueCleared(b, c)
    ensures DocUniqueCleared(a, c)
  {
    assert c.(fields := a.fields) == b.(fields := a.fields);
    forall j | 0 <= j < |a.fields|
      ensures UniqueCleared(a.fields[j], c.fields[j])
    {
      assert UniqueCleared(a.fields[j], b.fields[j]) && UniqueCleared(b.fields[j], c.fields[j]);
    }
  }

  lemma UniqueChangesTransitive(a: Db, b: Db, c: Db)
    requires UniqueChangesOnly(a, b) && UniqueChangesOnly(b, c)
    ensures UniqueChangesOnly(a, c)
  {
    forall k | k in a
      ensures DocUniqueCleared(a[k], c[k])
    {
      DocUniqueTransitive(a[k], b[k], c[k]);
    }
  }

  lemma OptionChangesReflexive(db: Db)
    ensures OptionChangesOnly(db, db)
  {
    forall k | k in db
      ensures DocOptionsRewritten(db[k], db[k])
    {
      assert db[k].(fields := db[k].fields) == db[k];
    }
  }

  lemma UniqueChangesReflexive(db: Db)
    ensures UniqueChangesOnly(db, db)
  {
    forall k | k in db
      ensures DocUniqueCleared(db[k], db[k])
    {
      assert db[k].(fields := db[k].fields) == db[k];
    }
  }

  /** Replacing one doctype by a related one relates the stores. */
  lemma OptionChangesAt(db: Db, name: string, doc: DocTypeMeta)
    requires name in db && DocOptionsRewritten(db[name], doc)
    ensures OptionChangesOnly(db, db[name := doc])
  {
    forall k | k in db
      ensures DocOptionsRewritten(db[k], db[name := doc][k])
    {
      if k != name {
        assert db[name := doc][k] == db[k];
        assert db[k].(fields := db[k].fields) == db[k];
      }
    }
  }

  lemma UniqueChangesAt(db: Db, name: string, doc: DocTypeMeta)
    requires name in db && DocUniqueCleared(db[name], doc)
    ensures UniqueChangesOnly(db, db[name := doc])
  {
    forall k | k in db
      ensures DocUniqueCleared(db[k], db[name := doc][k])
    {
      if k != name {
        assert db[name := doc][k] == db[k];
        assert db[k].(fields := db[k].fields) == db[k];
      }
    }
  }

  lemma AllUniqueKeptByDocTypeChanges(a: Db, b: Db)
    requires AllUniqueFieldnames(a) && DocTypeChangesOnly(a, b)
    ensures AllUniqueFieldnames(b)
  {
    forall k | k in b
      ensures UniqueFieldnames(b[k])
    {
      assert DocTypeRenamed(k, a[k], b[k]);
      assert b[k].fields == a[k].fields;
    }
  }

  lemma AllUniqueKeptByOptionChanges(a: Db, b: Db)
    requires AllUniqueFieldnames(a) && OptionChangesOnly(a, b)
    ensures AllUniqueFieldnames(b)
  {
    forall k | k in b
      ensures UniqueFieldnames(b[k])
    {
      assert DocOptionsRewritten(a[k], b[k]);
      forall j | 0 <= j < |a[k].fields|
        ensures b[k].fields[j].fieldname == a[k].fields[j].fieldname
      {
        assert OptionRewritten(a[k].fields[j], b[k].fields[j]);
      }
      UniqueFieldnamesTransfer(a[k], b[k]);
    }
  }

  lemma AllUniqueKeptByUniqueChanges(a: Db, b: Db)
    requires AllUniqueFieldnames(a) && UniqueChangesOnly(a, b)
    ensures AllUniqueFieldnames(b)
  {
    forall k | k in b
      ensures UniqueFieldnames(b[k])
    {
      assert DocUniqueCleared(a[k], b[k]);
      forall j | 0 <= j < |a[k].fields|
        ensures b[k].fields[j].fieldname == a[k].fields[j].fieldname
      {
        assert UniqueCleared(a[k].fields[j], b[k].fields[j]);
      }
      UniqueFieldnamesTransfer(a[k], b[k]);
    }
  }

  // ---------------------------------------------------------------------
  // Pass 1: document types
  // ---------------------------------------------------------------------

  /** The issue's doctype, when present, already has its proper name as document type. */
  predicate DocResolved(db: Db, issue: DocTypeIssue) {
    issue.doctype in db ==> db[issue.doctype].documentType == ProperName(issue.doctype)
  }

  /**
   One document-type fix: the loaded doctype ends up with its proper name
   as document type and nothing else changes; the counter moves only when
   that changed it.
   */
  function FixDocumentType(issue: DocTypeIssue, db: Db): (r: Pass)
    ensures r.fixes <= 1 && r.fixes + |r.errors| <= 1
    ensures issue.doctype !in db ==> r.db == db && r.errors == [FixError(DocumentTypeFix, issue.doctype, "")]
    ensures issue.doctype in db ==>
              && r.errors == []
              && r.db == db[issue.doctype := db[issue.doctype].(documentType := ProperName(issue.doctype))]
              && (r.fixes == 1 <==> db[issue.doctype].documentType != ProperName(issue.doctype))
    ensures DocTypeChangesOnly(db, r.db)
    ensures DocResolved(r.db, issue)
  {
    if issue.doctype !in db then Pass(db, 0, [FixError(DocumentTypeFix, issue.doctype, "")])
    else
      var doc := db[issue.doctype];
      var proper := ProperName(issue.doctype);
      if doc.documentType != proper then Pass(db[issue.doctype := doc.(documentType := proper)], 1, [])
      else
        assert doc.(documentType := proper) == doc;
        Pass(db, 0, [])
  }

  function FixDocumentTypes(issues: seq<DocTypeIssue>, db: Db): (r: Pass)
    ensures r.fixes + |r.errors| <= |issues|
    ensures r.db.Keys == db.Keys
    ensures forall e :: e in r.errors ==> e.kind == DocumentTypeFix && e.doctype !in db
    decreases |issues|
  {
    if |issues| == 0 then Pass(db, 0, [])
    else
      var step := FixDocumentType(issues[0], db);
      var rest := FixDocumentTypes(issues[1..], step.db);
      Pass(rest.db, step.fixes + rest.fixes, step.errors + rest.errors)
  }

  /** The pass only ever sets document types to proper names. */
  lemma {:induction false} DocumentTypesChangeOnly(issues: seq<DocTypeIssue>, db: Db)
    ensures DocTypeChangesOnly(db, FixDocumentTypes(issues, db).db)
    decreases |issues|
  {
    if |issues| == 0 {
      assert forall k :: k in db ==> DocTypeRenamed(k, db[k], db[k]);
    } else {
      var step := FixDocumentType(issues[0], db);
      var rest := FixDocumentTypes(issues[1..], step.db);
      DocumentTypesChangeOnly(issues[1..], step.db);
      DocumentTypesUnfold(issues, db);
      DocTypeChangesTransitive(db, step.db, rest.db);
    }
  }

  lemma DocumentTypesUnfold(issues: seq<DocTypeIssue>, db: Db)
    requires |issues| > 0
    ensures FixDocumentTypes(issues, db).db == FixDocumentTypes(issues[1..], FixDocumentType(issues[0], db).db).db
  {
  }

  lemma DocResolvedKeptByDocTypeChanges(a: Db, b: Db, issue: DocTypeIssue)
    requires DocResolved(a, issue) && DocTypeChangesOnly(a, b)
    ensures DocResolved(b, issue)
  {
    if issue.doctype in b {
      assert DocTypeRenamed(issue.doctype, a[issue.doctype], b[issue.doctype]);
    }
  }

  /** After the pass, every issue's doctype that is present has its proper name as document type. */
  lemma {:induction false} DocumentTypesResolve(issues: seq<DocTypeIssue>, db: Db)
    ensures forall i :: 0 <= i < |issues| ==> DocResolved(FixDocumentTypes(issues, db).db, issues[i])
    decreases |issues|
  {
    if |issues| > 0 {
      var step := FixDocumentType(issues[0], db);
      var rest := FixDocumentTypes(issues[1..], step.db);
      DocumentTypesResolve(issues[1..], step.db);
      DocumentTypesChangeOnly(issues[1..], step.db);
      DocResolvedKeptByDocTypeChanges(step.db, rest.db, issues[0]);
      DocumentTypesUnfold(issues, db);
      forall i | 0 <= i < |issues|
        ensures DocResolved(rest.db, issues[i])
      {
        if i > 0 {
          assert DocResolved(rest.db, issues[1..][i - 1]);
        }
      }
    }
  }

  /** The counter is zero exactly when the pass leaves the store as it was. */
  lemma {:induction false} DocumentTypeFixesCountChanges(issues: seq<DocTypeIssue>, db: Db)
    ensures FixDocumentTypes(issues, db).fixes == 0 <==> FixDocumentTypes(issues, db).db == db
    decreases |issues|
  {
    if |issues| > 0 {
      var step := FixDocumentType(issues[0], db);
      var rest := FixDocumentTypes(issues[1..], step.db);
      DocumentTypeFixesCountChanges(issues[1..], step.db);
      DocumentTypesChangeOnly(issues[1..], step.db);
      DocumentTypesUnfold(issues, db);
      if step.fixes == 1 {
        var k := issues[0].doctype;
        DocResolvedKeptByDocTypeChanges(step.db, rest.db, issues[0]);
        assert rest.db[k].documentType != db[k].documentType;
      }
    }
  }

  /** Every issue whose doctype is missing from the store leaves an error naming it. */
  lemma {:induction false} DocumentTypeMissingReported(issues: seq<DocTypeIssue>, db: Db)
    ensures forall i :: 0 <= i < |issues| && issues[i].doctype !in db ==>
              FixError(DocumentTypeFix, issues[i].doctype, "") in FixDocumentTypes(issues, db).errors
    decreases |issues|
  {
    if |issues| > 0 {
      var step := FixDocumentType(issues[0], db);
      DocumentTypeMissingReported(issues[1..], step.db);
      assert forall i :: 1 <= i < |issues| ==> issues[i] == issues[1..][i - 1];
    }
  }

  /** A store where every issue is already resolved is left alone, with no fix counted. */
  lemma {:induction false} DocumentTypesNothingLeft(issues: seq<DocTypeIssue>, db: Db)
    requires forall i :: 0 <= i < |issues| ==> DocResolved(db, issues[i])
    ensures FixDocumentTypes(issues, db).fixes == 0 && FixDocumentTypes(issues, db).db == db
    decreases |issues|
  {
    if |issues| > 0 {
      var step := FixDocumentType(issues[0], db);
      assert DocResolved(db, issues[0]);
      assert step.db == db;
      assert forall i :: 1 <= i < |issues| ==> issues[i] == issues[1..][i - 1];
      DocumentTypesNothingLeft(issues[1..], db);
    }
  }

  /** A second document-type pass over the same issues fixes nothing. */
  lemma DocumentTypesIdempotent(issues: seq<DocTypeIssue>, db: Db)
    ensures var once := FixDocumentTypes(issues, db).db;
            FixDocumentTypes(issues, once).fixes == 0 && FixDocumentTypes(issues, once).db == once
  {
    DocumentTypesResolve(issues, db);
    DocumentTypesNothingLeft(issues, FixDocumentTypes(issues, db).db);
  }

  // ---------------------------------------------------------------------
  // Pass 2: link fields
  // ---------------------------------------------------------------------

  /** The field a link issue names: same fieldname, same target. */
  predicate LinkTarget(f: FieldMeta, issue: LinkIssue) {
    f.fieldname == issue.field && f.options == issue.options
  }

  /** No field of the doctype is the one the link issue names. */
  predicate DocLinkResolved(doc: DocTypeMeta, issue: LinkIssue) {
    forall j :: 0 <= j < |doc.fields| ==> !LinkTarget(doc.fields[j], issue)
  }

  /** After the pass, no field matching the issue is left in its doctype. */
  predicate LinkResolved(db: Db, issue: LinkIssue) {
    issue.doctype in db ==> DocLinkResolved(db[issue.doctype], issue)
  }

  /** Position of the first field the link issue names. */
  function LinkFieldIndex(doc: DocTypeMeta, issue: LinkIssue): (r: Option<nat>)
    ensures r.Some? ==> r.value < |doc.fields| && LinkTarget(doc.fields[r.value], issue)
                        && forall i :: 0 <= i < r.value ==> !LinkTarget(doc.fields[i], issue)
    ensures r.None? <==> DocLinkResolved(doc, issue)
  {
    FirstIndex(doc.fields, f => LinkTarget(f, issue))
  }

  /** The doctype with field `j`'s target replaced by the rewritten issue target. */
  function WithLinkOption(doc: DocTypeMeta, j: nat, issue: LinkIssue): (r: DocTypeMeta)
    requires j < |doc.fields|
    ensures DocOptionsRewritten(doc, r)
    ensures r.fields[j] == doc.fields[j].(options := LinkOption(issue.options))
    ensures forall i :: 0 <= i < |doc.fields| && i != j ==> r.fields[i] == doc.fields[i]
  {
    doc.(fields := doc.fields[j := doc.fields[j].(options := LinkOption(issue.options))])
  }

  /**
   One link fix: the first field of the loaded doctype matching the issue
   gets the rewritten target and is counted, whether or not the text
   changed; with no matching field nothing happens.
   */
  function FixLinkField(issue: LinkIssue, db: Db): (r: Pass)
    ensures r.fixes <= 1 && r.fixes + |r.errors| <= 1
    ensures issue.doctype !in db ==> r.db == db && r.errors == [FixError(LinkFieldFix, issue.doctype, issue.field)]
    ensures issue.doctype in db ==> r.errors == []
    ensures r.fixes == 0 ==> r.db == db
    ensures r.fixes == 1 <==> issue.doctype in db && !DocLinkResolved(db[issue.doctype], issue)
    ensures r.fixes == 1 ==>
              r.db == db[issue.doctype := WithLinkOption(db[issue.doctype], LinkFieldIndex(db[issue.doctype], issue).value, issue)]
    ensures OptionChangesOnly(db, r.db)
  {
    if issue.doctype !in db then Pass(db, 0, [FixError(LinkFieldFix, issue.doctype, issue.field)])
    else
      var doc := db[issue.doctype];
      match LinkFieldIndex(doc, issue)
      case None =>
        OptionChangesReflexive(db);
        Pass(db, 0, [])
      case Some(j) =>
        var fixed := WithLinkOption(doc, j, issue);
        OptionChangesAt(db, issue.doctype, fixed);
        Pass(db[issue.doctype := fixed], 1, [])
  }

  function FixLinkFields(issues: seq<LinkIssue>, db: Db): (r: Pass)
    ensures r.fixes + |r.errors| <= |issues|
    ensures r.fixes == 0 ==> r.db == db
    ensures r.db.Keys == db.Keys
    ensures forall e :: e in r.errors ==> e.kind == LinkFieldFix && e.doctype !in db
    decreases |issues|
  {
    if |issues| == 0 then Pass(db, 0, [])
    else
      var step := FixLinkField(issues[0], db);
      var rest := FixLinkFields(issues[1..], step.db);
      Pass(rest.db, step.fixes + rest.fixes, step.errors + rest.errors)
  }

  lemma LinkFieldsUnfold(issues: seq<LinkIssue>, db: Db)
    requires |issues| > 0
    ensures FixLinkFields(issues, db).db == FixLinkFields(issues[1..], FixLinkField(issues[0], db).db).db
  {
  }

  /** The pass only ever gives fields space-free link targets. */
  lemma {:induction false} LinkFieldsChangeOnly(issues: seq<LinkIssue>, db: Db)
    ensures OptionChangesOnly(db, FixLinkFields(issues, db).db)
    decreases |issues|
  {
    if |issues| == 0 {
      OptionChangesReflexive(db);
    } else {
      var step := FixLinkField(issues[0], db);
      var rest := FixLinkFields(issues[1..], step.db);
      LinkFieldsChangeOnly(issues[1..], step.db);
      LinkFieldsUnfold(issues, db);
      OptionChangesTransitive(db, step.db, rest.db);
    }
  }

  /** With unique fieldnames, rewriting the first matching field of a spaced target leaves no field matching. */
  lemma WithLinkOptionResolves(doc: DocTypeMeta, issue: LinkIssue)
    requires ' ' in issue.options && UniqueFieldnames(doc) && LinkFieldIndex(doc, issue).Some?
    ensures DocLinkResolved(WithLinkOption(doc, LinkFieldIndex(doc, issue).value, issue), issue)
  {
    var j := LinkFieldIndex(doc, issue).value;
    var r := WithLinkOption(doc, j, issue);
    LinkOptionChangesSpaced(issue.options);
    forall i | 0 <= i < |r.fields|
      ensures !LinkTarget(r.fields[i], issue)
    {
      if i != j {
        assert doc.fields[i].fieldname != doc.fields[j].fieldname;
      }
    }
  }

  /** Link rewrites never bring a spaced target back. */
  lemma DocLinkResolvedKeptByOptions(a: DocTypeMeta, b: DocTypeMeta, issue: LinkIssue)
    requires ' ' in issue.options && DocLinkResolved(a, issue) && DocOptionsRewritten(a, b)
    ensures DocLinkResolved(b, issue)
  {
    forall j | 0 <= j < |b.fields|
      ensures !LinkTarget(b.fields[j], issue)
    {
      assert OptionRewritten(a.fields[j], b.fields[j]) && !LinkTarget(a.fields[j], issue);
    }
  }

  lemma LinkResolvedKeptByOptionChanges(a: Db, b: Db, issue: LinkIssue)
    requires ' ' in issue.options
    requires LinkResolved(a, issue) && OptionChangesOnly(a, b)
    ensures LinkResolved(b, issue)
  {
    if issue.doctype in b {
      DocLinkResolvedKeptByOptions(a[issue.doctype], b[issue.doctype], issue);
    }
  }

  /** With unique fieldnames, fixing a spaced link target resolves its issue. */
  lemma FixLinkFieldResolves(issue: LinkIssue, db: Db)
    requires ' ' in issue.options && AllUniqueFieldnames(db)
    ensures LinkResolved(FixLinkField(issue, db).db, issue)
  {
    if issue.doctype in db && FixLinkField(issue, db).fixes == 1 {
      WithLinkOptionResolves(db[issue.doctype], issue);
    }
  }

  /** With unique fieldnames and spaced targets, the pass resolves every issue it is given. */
  lemma {:induction false} LinkFieldsResolve(issues: seq<LinkIssue>, db: Db)
    requires AllUniqueFieldnames(db)
    requires forall i :: 0 <= i < |issues| ==> ' ' in issues[i].options
    ensures forall i :: 0 <= i < |issues| ==> LinkResolved(FixLinkFields(issues, db).db, issues[i])
    decreases |issues|
  {
    if |issues| > 0 {
      var step := FixLinkField(issues[0], db);
      var rest := FixLinkFields(issues[1..], step.db);
      FixLinkFieldResolves(issues[0], db);
      AllUniqueKeptByOptionChanges(db, step.db);
      assert forall i :: 0 <= i < |issues| - 1 ==> ' ' in issues[1..][i].options;
      LinkFieldsResolve(issues[1..], step.db);
      LinkFieldsChangeOnly(issues[1..], step.db);
      LinkResolvedKeptByOptionChanges(step.db, rest.db, issues[0]);
      LinkFieldsUnfold(issues, db);
      forall i | 0 <= i < |issues|
        ensures LinkResolved(rest.db, issues[i])
      {
        if i > 0 {
          assert LinkResolved(rest.db, issues[1..][i - 1]);
        }
      }
    }
  }

  /** A store where every issue is already resolved is left alone, with no fix counted. */
  lemma {:induction false} LinkFieldsNothingLeft(issues: seq<LinkIssue>, db: Db)
    requires forall i :: 0 <= i < |issues| ==> LinkResolved(db, issues[i])
    ensures FixLinkFields(issues, db).fixes == 0 && FixLinkFields(issues, db).db == db
    decreases |issues|
  {
    if |issues| > 0 {
      assert LinkResolved(db, issues[0]);
      assert FixLinkField(issues[0], db).db == db;
      assert forall i :: 1 <= i < |issues| ==> issues[i] == issues[1..][i - 1];
      LinkFieldsNothingLeft(issues[1..], db);
    }
  }

  /** Every issue whose doctype is missing from the store leaves an error naming it and the field. */
  lemma {:induction false} LinkFieldMissingReported(issues: seq<LinkIssue>, db: Db)
    ensures forall i :: 0 <= i < |issues| && issues[i].doctype !in db ==>
              FixError(LinkFieldFix, issues[i].doctype, issues[i].field) in FixLinkFields(issues, db).errors
    decreases |issues|
  {
    if |issues| > 0 {
      var step := FixLinkField(issues[0], db);
      LinkFieldMissingReported(issues[1..], step.db);
      assert forall i :: 1 <= i < |issues| ==> issues[i] == issues[1..][i - 1];
    }
  }

  // ---------------------------------------------------------------------
  // Pass 3: naming series
  // ---------------------------------------------------------------------

  /** No unique `naming_series` field is left in the doctype. */
  predicate DocNamingResolved(doc: DocTypeMeta) {
    forall j :: 0 <= j < |doc.fields| ==> !NamingSeriesFlagged(doc.fields[j])
  }

  predicate NamingResolved(db: Db, name: string) {
    name in db ==> DocNamingResolved(db[name])
  }

  /** Position of the first unique `naming_series` field. */
  function NamingSeriesIndex(doc: DocTypeMeta): (r: Option<nat>)
    ensures r.Some? ==> r.value < |doc.fields| && NamingSeriesFlagged(doc.fields[r.value])
                        && forall i :: 0 <= i < r.value ==> !NamingSeriesFlagged(doc.fields[i])
    ensures r.None? <==> DocNamingResolved(doc)
  {
    FirstIndex(doc.fields, NamingSeriesFlagged)
  }

  /** The doctype with field `j`'s unique flag cleared. */
  function WithoutUnique(doc: DocTypeMeta, j: nat): (r: DocTypeMeta)
    requires j < |doc.fields|
    ensures DocUniqueCleared(doc, r)
    ensures r.fields[j] == doc.fields[j].(unique := 0)
    ensures forall i :: 0 <= i < |doc.fields| && i != j ==> r.fields[i] == doc.fields[i]
  {
    doc.(fields := doc.fields[j := doc.fields[j].(unique := 0)])
  }

  /**
   One naming_series fix: the first unique `naming_series` field of the
   loaded doctype loses its unique flag and is counted; fields after it are
   left alone.
   */
  function FixNamingSeries(name: string, db: Db): (r: Pass)
    ensures r.fixes <= 1 && r.fixes + |r.errors| <= 1
    ensures name !in db ==> r.db == db && r.errors == [FixError(NamingSeriesFix, name, "")]
    ensures name in db ==> r.errors == []
    ensures r.fixes == 0 <==> r.db == db
    ensures r.fixes == 1 <==> name in db && !DocNamingResolved(db[name])
    ensures r.fixes == 1 ==> r.db == db[name := WithoutUnique(db[name], NamingSeriesIndex(db[name]).value)]
    ensures UniqueChangesOnly(db, r.db)
  {
    if name !in db then
      UniqueChangesReflexive(db);
      Pass(db, 0, [FixError(NamingSeriesFix, name, "")])
    else
      var doc := db[name];
      match NamingSeriesIndex(doc)
      case None =>
        UniqueChangesReflexive(db);
        Pass(db, 0, [])
      case Some(j) =>
        var fixed := WithoutUnique(doc, j);
        assert fixed.fields[j].unique != doc.fields[j].unique;
        UniqueChangesAt(db, name, fixed);
        Pass(db[name := fixed], 1, [])
  }

  function FixNamingSeriesAll(names: seq<string>, db: Db): (r: Pass)
    ensures r.fixes + |r.errors| <= |names|
    ensures r.db.Keys == db.Keys
    ensures forall e :: e in r.errors ==> e.kind == NamingSeriesFix && e.doctype !in db
    decreases |names|
  {
    if |names| == 0 then Pass(db, 0, [])
    else
      var step := FixNamingSeries(names[0], db);
      var rest := FixNamingSeriesAll(names[1..], step.db);
      Pass(rest.db, step.fixes + rest.fixes, step.errors + rest.errors)
  }

  lemma NamingSeriesAllUnfold(names: seq<string>, db: Db)
    requires |names| > 0
    ensures FixNamingSeriesAll(names, db).db == FixNamingSeriesAll(names[1..], FixNamingSeries(names[0], db).db).db
  {
  }

  /** The pass only ever clears unique flags. */
  lemma {:induction false} NamingSeriesChangeOnly(names: seq<string>, db: Db)
    ensures UniqueChangesOnly(db, FixNamingSeriesAll(names, db).db)
    decreases |names|
  {
    if |names| == 0 {
      UniqueChangesReflexive(db);
    } else {
      var step := FixNamingSeries(names[0], db);
      var rest := FixNamingSeriesAll(names[1..], step.db);
      NamingSeriesChangeOnly(names[1..], step.db);
      NamingSeriesAllUnfold(names, db);
      UniqueChangesTransitive(db, step.db, rest.db);
    }
  }

  /** A cleared flag stays cleared under further clearing. */
  lemma ClearedStaysCleared(a: DocTypeMeta, b: DocTypeMeta, j: nat)
    requires DocUniqueCleared(a, b) && j < |a.fields| && a.fields[j].unique == 0
    ensures b.fields[j].unique == 0
  {
    assert UniqueCleared(a.fields[j], b.fields[j]);
  }

  /** The counter is zero exactly when the pass leaves the store as it was. */
  lemma {:induction false} NamingSeriesFixesCountChanges(names: seq<string>, db: Db)
    ensures FixNamingSeriesAll(names, db).fixes == 0 <==> FixNamingSeriesAll(names, db).db == db
    decreases |names|
  {
    if |names| > 0 {
      var step := FixNamingSeries(names[0], db);
      var rest := FixNamingSeriesAll(names[1..], step.db);
      NamingSeriesFixesCountChanges(names[1..], step.db);
      NamingSeriesChangeOnly(names[1..], step.db);
      NamingSeriesAllUnfold(names, db);
      if step.fixes == 1 {
        var k := names[0];
        var j := NamingSeriesIndex(db[k]).value;
        assert step.db[k].fields[j].unique == 0;
        ClearedStaysCleared(step.db[k], rest.db[k], j);
        assert rest.db[k].fields[j].unique != db[k].fields[j].unique;
      }
    }
  }

  lemma DocNamingResolvedKept(a: DocTypeMeta, b: DocTypeMeta)
    requires DocNamingResolved(a) && DocUniqueCleared(a, b)
    ensures DocNamingResolved(b)
  {
    forall j | 0 <= j < |b.fields|
      ensures !NamingSeriesFlagged(b.fields[j])
    {
      assert UniqueCleared(a.fields[j], b.fields[j]) && !NamingSeriesFlagged(a.fields[j]);
    }
  }

  lemma NamingResolvedKeptByUniqueChanges(a: Db, b: Db, name: string)
    requires NamingResolved(a, name) && UniqueChangesOnly(a, b)
    ensures NamingResolved(b, name)
  {
    if name in b {
      DocNamingResolvedKept(a[name], b[name]);
    }
  }

  /** With unique fieldnames, clearing the first unique `naming_series` field leaves none. */
  lemma WithoutUniqueResolves(doc: DocTypeMeta)
    requires UniqueFieldnames(doc) && NamingSeriesIndex(doc).Some?
    ensures DocNamingResolved(WithoutUnique(doc, NamingSeriesIndex(doc).value))
  {
    var j := NamingSeriesIndex(doc).value;
    var r := WithoutUnique(doc, j);
    forall i | 0 <= i < |r.fields|
      ensures !NamingSeriesFlagged(r.fields[i])
    {
      if i != j {
        assert doc.fields[i].fieldname != doc.fields[j].fieldname;
      }
    }
  }

  /** With unique fieldnames, one naming_series fix resolves its doctype. */
  lemma FixNamingSeriesResolves(name: string, db: Db)
    requires AllUniqueFieldnames(db)
    ensures NamingResolved(FixNamingSeries(name, db).db, name)
  {
    if name in db && FixNamingSeries(name, db).fixes == 1 {
      WithoutUniqueResolves(db[name]);
    }
  }

  /** With unique fieldnames, the pass resolves every doctype it is given. */
  lemma {:induction false} NamingSeriesResolve(names: seq<string>, db: Db)
    requires AllUniqueFieldnames(db)
    ensures forall i :: 0 <= i < |names| ==> NamingResolved(FixNamingSeriesAll(names, db).db, names[i])
    decreases |names|
  {
    if |names| > 0 {
      var step := FixNamingSeries(names[0], db);
      var rest := FixNamingSeriesAll(names[1..], step.db);
      FixNamingSeriesResolves(names[0], db);
      AllUniqueKeptByUniqueChanges(db, step.db);
      NamingSeriesResolve(names[1..], step.db);
      NamingSeriesChangeOnly(names[1..], step.db);
      NamingResolvedKeptByUniqueChanges(step.db, rest.db, names[0]);
      NamingSeriesAllUnfold(names, db);
      forall i | 0 <= i < |names|
        ensures NamingResolved(rest.db, names[i])
      {
        if i > 0 {
          assert NamingResolved(rest.db, names[1..][i - 1]);
        }
      }
    }
  }

  /** A store where every named doctype is already resolved is left alone, with no fix counted. */
  lemma {:induction false} NamingSeriesNothingLeft(names: seq<string>, db: Db)
    requires forall i :: 0 <= i < |names| ==> NamingResolved(db, names[i])
    ensures FixNamingSeriesAll(names, db).fixes == 0 && FixNamingSeriesAll(names, db).db == db
    decreases |names|
  {
    if |names| > 0 {
      assert NamingResolved(db, names[0]);
      assert FixNamingSeries(names[0], db).db == db;
      assert forall i :: 1 <= i < |names| ==> names[i] == names[1..][i - 1];
      NamingSeriesNothingLeft(names[1..], db);
    }
  }

  /** Every name missing from the store leaves an error naming it. */
  lemma {:induction false} NamingSeriesMissingReported(names: seq<string>, db: Db)
    ensures forall i :: 0 <= i < |names| && names[i] !in db ==>
              FixError(NamingSeriesFix, names[i], "") in FixNamingSeriesAll(names, db).errors
    decreases |names|
  {
    if |names| > 0 {
      var step := FixNamingSeries(names[0], db);
      NamingSeriesMissingReported(names[1..], step.db);
      assert forall i :: 1 <= i < |names| ==> names[i] == names[1..][i - 1];
    }
  }

  // ---------------------------------------------------------------------
  // The three passes together
  // ---------------------------------------------------------------------

  datatype FixResults = FixResults(documentTypeFixes: nat, linkFieldFixes: nat, namingSeriesFixes: nat, errors: seq<FixError>)

  datatype Applied = Applied(results: FixResults, db: Db)

  function KindRank(k: FixKind): nat {
    match k
    case DocumentTypeFix => 0
    case LinkFieldFix => 1
    case NamingSeriesFix => 2
  }

  function IssueCount(issues: Issues): nat {
    |issues.documentType| + |issues.linkField| + |issues.namingSeries|
  }

  /**
   `apply_fixes`: the document-type pass, then the link pass, then the
   naming_series pass, each on the store the previous one left, with at most
   one fix or one error per issue. `ApplyFixesErrorsInOrder`,
   `ApplyFixesErrorsNameMissing` and `ApplyFixesNoFixNoChange` state what
   the results report.
   */
  function ApplyFixes(issues: Issues, db: Db): (r: Applied)
    ensures r.db.Keys == db.Keys
    ensures r.results.documentTypeFixes + r.results.linkFieldFixes + r.results.namingSeriesFixes + |r.results.errors|
            <= IssueCount(issues)
  {
    var d := FixDocumentTypes(issues.documentType, db);
    var l := FixLinkFields(issues.linkField, d.db);
    var n := FixNamingSeriesAll(issues.namingSeries, l.db);
    Applied(FixResults(d.fixes, l.fixes, n.fixes, d.errors + l.errors + n.errors), n.db)
  }

  /** The fixes and the errors a run reports, pass by pass, and the store it leaves. */
  lemma ApplyFixesUnfold(issues: Issues, db: Db)
    ensures var d := FixDocumentTypes(issues.documentType, db);
            var l := FixLinkFields(issues.linkField, d.db);
            var n := FixNamingSeriesAll(issues.namingSeries, l.db);
            ApplyFixes(issues, db) == Applied(FixResults(d.fixes, l.fixes, n.fixes, d.errors + l.errors + n.errors), n.db)
  {
  }

  /** The errors come pass by pass: document-type errors, then link errors, then naming_series errors. */
  lemma ApplyFixesErrorsInOrder(issues: Issues, db: Db)
    ensures var errors := ApplyFixes(issues, db).results.errors;
            forall a, b :: 0 <= a < b < |errors| ==> KindRank(errors[a].kind) <= KindRank(errors[b].kind)
  {
    var d := FixDocumentTypes(issues.documentType, db);
    var l := FixLinkFields(issues.linkField, d.db);
    var n := FixNamingSeriesAll(issues.namingSeries, l.db);
    ApplyFixesUnfold(issues, db);
    PassErrorsInOrder(d.errors, l.errors, n.errors);
  }

  /** A run that counts no fix leaves the store as it was. */
  lemma ApplyFixesNoFixNoChange(issues: Issues, db: Db)
    ensures var r := ApplyFixes(issues, db);
            r.results.documentTypeFixes == 0 && r.results.linkFieldFixes == 0 && r.results.namingSeriesFixes == 0 ==>
              r.db == db
  {
    var d := FixDocumentTypes(issues.documentType, db);
    var l := FixLinkFields(issues.linkField, d.db);
    ApplyFixesUnfold(issues, db);
    DocumentTypeFixesCountChanges(issues.documentType, db);
    NamingSeriesFixesCountChanges(issues.namingSeries, l.db);
  }

  lemma PassErrorsInOrder(de: seq<FixError>, le: seq<FixError>, ne: seq<FixError>)
    requires forall e :: e in de ==> e.kind == DocumentTypeFix
    requires forall e :: e in le ==> e.kind == LinkFieldFix
    requires forall e :: e in ne ==> e.kind == NamingSeriesFix
    ensures var errors := de + le + ne;
            forall a, b :: 0 <= a < b < |errors| ==> KindRank(errors[a].kind) <= KindRank(errors[b].kind)
  {
    var errors := de + le + ne;
    forall a | 0 <= a < |errors|
      ensures KindRank(errors[a].kind) == if a < |de| then 0 else if a < |de| + |le| then 1 else 2
    {
      if a < |de| {
        assert errors[a] == de[a];
      } else if a < |de| + |le| {
        assert errors[a] == le[a - |de|];
      } else {
        assert errors[a] == ne[a - |de| - |le|];
      }
    }
  }

  /** Every error of a run names a doctype the store lacks. */
  lemma ApplyFixesErrorsNameMissing(issues: Issues, db: Db)
    ensures forall e :: e in ApplyFixes(issues, db).results.errors ==> e.doctype !in db
  {
    var d := FixDocumentTypes(issues.documentType, db);
    var l := FixLinkFields(issues.linkField, d.db);
    var n := FixNamingSeriesAll(issues.namingSeries, l.db);
    ApplyFixesUnfold(issues, db);
    assert d.db.Keys == db.Keys && l.db.Keys == db.Keys;
    PassErrorsNameMissing(d.errors, l.errors, n.errors, db, d.db, l.db);
    forall e | e in ApplyFixes(issues, db).results.errors
      ensures e.doctype !in db
    {
      assert e in d.errors + l.errors + n.errors;
    }
  }

  lemma PassErrorsNameMissing(de: seq<FixError>, le: seq<FixError>, ne: seq<FixError>, db: Db, db1: Db, db2: Db)
    requires db1.Keys == db.Keys && db2.Keys == db.Keys
    requires forall e :: e in de ==> e.doctype !in db
    requires forall e :: e in le ==> e.doctype !in db1
    requires forall e :: e in ne ==> e.doctype !in db2
    ensures forall e :: e in de + le + ne ==> e.doctype !in db
  {
  }

  lemma DocResolvedKeptByOptionChanges(a: Db, b: Db, issue: DocTypeIssue)
    requires DocResolved(a, issue) && OptionChangesOnly(a, b)
    ensures DocResolved(b, issue)
  {
    if issue.doctype in b {
      assert DocOptionsRewritten(a[issue.doctype], b[issue.doctype]);
      assert b[issue.doctype].documentType == b[issue.doctype].(fields := a[issue.doctype].fields).documentType;
    }
  }

  lemma DocResolvedKeptByUniqueChanges(a: Db, b: Db, issue: DocTypeIssue)
    requires DocResolved(a, issue) && UniqueChangesOnly(a, b)
    ensures DocResolved(b, issue)
  {
    if issue.doctype in b {
      assert DocUniqueCleared(a[issue.doctype], b[issue.doctype]);
      assert b[issue.doctype].documentType == b[issue.doctype].(fields := a[issue.doctype].fields).documentType;
    }
  }

  lemma LinkResolvedKeptByUniqueChanges(a: Db, b: Db, issue: LinkIssue)
    requires LinkResolved(a, issue) && UniqueChangesOnly(a, b)
    ensures LinkResolved(b, issue)
  {
    if issue.doctype in b {
      var x, y := a[issue.doctype], b[issue.doctype];
      assert DocUniqueCleared(x, y);
      forall j | 0 <= j < |y.fields|
        ensures !LinkTarget(y.fields[j], issue)
      {
        assert UniqueCleared(x.fields[j], y.fields[j]) && !LinkTarget(x.fields[j], issue);
      }
    }
  }

  /** After a run, every document-type issue is resolved. */
  lemma FirstRunResolvesDocTypes(issues: Issues, db: Db)
    ensures forall i :: 0 <= i < |issues.documentType| ==> DocResolved(ApplyFixes(issues, db).db, issues.documentType[i])
  {
    var d := FixDocumentTypes(issues.documentType, db);
    var l := FixLinkFields(issues.linkField, d.db);
    var n := FixNamingSeriesAll(issues.namingSeries, l.db);
    ApplyFixesUnfold(issues, db);
    DocumentTypesResolve(issues.documentType, db);
    LinkFieldsChangeOnly(issues.linkField, d.db);
    NamingSeriesChangeOnly(issues.namingSeries, l.db);
    forall i | 0 <= i < |issues.documentType|
      ensures DocResolved(n.db, issues.documentType[i])
    {
      DocResolvedKeptByOptionChanges(d.db, l.db, issues.documentType[i]);
      DocResolvedKeptByUniqueChanges(l.db, n.db, issues.documentType[i]);
    }
  }

  /** With unique fieldnames and spaced targets, after a run every link issue is resolved. */
  lemma FirstRunResolvesLinks(issues: Issues, db: Db)
    requires AllUniqueFieldnames(db)
    requires forall i :: 0 <= i < |issues.linkField| ==> ' ' in issues.linkField[i].options
    ensures forall i :: 0 <= i < |issues.linkField| ==> LinkResolved(ApplyFixes(issues, db).db, issues.linkField[i])
  {
    var d := FixDocumentTypes(issues.documentType, db);
    var l := FixLinkFields(issues.linkField, d.db);
    var n := FixNamingSeriesAll(issues.namingSeries, l.db);
    ApplyFixesUnfold(issues, db);
    DocumentTypesChangeOnly(issues.documentType, db);
    AllUniqueKeptByDocTypeChanges(db, d.db);
    LinkFieldsResolve(issues.linkField, d.db);
    NamingSeriesChangeOnly(issues.namingSeries, l.db);
    forall i | 0 <= i < |issues.linkField|
      ensures LinkResolved(n.db, issues.linkField[i])
    {
      LinkResolvedKeptByUniqueChanges(l.db, n.db, issues.linkField[i]);
    }
  }

  /** With unique fieldnames, after a run every naming_series issue is resolved. */
  lemma FirstRunResolvesNaming(issues: Issues, db: Db)
    requires AllUniqueFieldnames(db)
    ensures forall i :: 0 <= i < |issues.namingSeries| ==> NamingResolved(ApplyFixes(issues, db).db, issues.namingSeries[i])
  {
    var d := FixDocumentTypes(issues.documentType, db);
    var l := FixLinkFields(issues.linkField, d.db);
    ApplyFixesUnfold(issues, db);
    DocumentTypesChangeOnly(issues.documentType, db);
    AllUniqueKeptByDocTypeChanges(db, d.db);
    LinkFieldsChangeOnly(issues.linkField, d.db);
    AllUniqueKeptByOptionChanges(d.db, l.db);
    NamingSeriesResolve(issues.namingSeries, l.db);
  }

  /** A run over a store where every issue is already resolved fixes nothing and changes nothing. */
  lemma ApplyFixesNothingLeft(issues: Issues, db: Db)
    requires forall i :: 0 <= i < |issues.documentType| ==> DocResolved(db, issues.documentType[i])
    requires forall i :: 0 <= i < |issues.linkField| ==> LinkResolved(db, issues.linkField[i])
    requires forall i :: 0 <= i < |issues.namingSeries| ==> NamingResolved(db, issues.namingSeries[i])
    ensures ApplyFixes(issues, db).db == db
    ensures ApplyFixes(issues, db).results.documentTypeFixes == 0
    ensures ApplyFixes(issues, db).results.linkFieldFixes == 0
    ensures ApplyFixes(issues, db).results.namingSeriesFixes == 0
  {
    DocumentTypesNothingLeft(issues.documentType, db);
    LinkFieldsNothingLeft(issues.linkField, db);
    NamingSeriesNothingLeft(issues.namingSeries, db);
  }

  /**
   With unique fieldnames and spaced link targets, a second run over the
   same issues finds nothing left to fix and leaves the store as the first
   run left it.
   */
  lemma ApplyFixesIdempotent(issues: Issues, db: Db)
    requires AllUniqueFieldnames(db)
    requires forall i :: 0 <= i < |issues.linkField| ==> ' ' in issues.linkField[i].options
    ensures var once := ApplyFixes(issues, db).db;
            var again := ApplyFixes(issues, once);
            && again.db == once
            && again.results.documentTypeFixes == 0
            && again.results.linkFieldFixes == 0
            && again.results.namingSeriesFixes == 0
  {
    FirstRunResolvesDocTypes(issues, db);
    FirstRunResolvesLinks(issues, db);
    FirstRunResolvesNaming(issues, db);
    ApplyFixesNothingLeft(issues, ApplyFixes(issues, db).db);
  }

  /** Every detected link issue has a spaced target. */
  lemma DetectedLinkTargetsSpaced(doctypes: seq<DocTypeMeta>)
    ensures forall i :: 0 <= i < |DetectIssues(doctypes).linkField| ==> ' ' in DetectIssues(doctypes).linkField[i].options
  {
    var links := DetectIssues(doctypes).linkField;
    DetectLinkFieldExact(doctypes);
    forall i | 0 <= i < |links|
      ensures ' ' in links[i].options
    {
      var x := links[i];
      assert x in DetectIssues(doctypes).linkField;
      var d :| 0 <= d < |doctypes| && x in FieldIssues(doctypes[d], doctypes[d].fields).linkField;
      FieldIssuesExact(doctypes[d], doctypes[d].fields);
    }
  }

  /** Detecting and then fixing twice: the second run of fixes does nothing. */
  lemma DetectThenFixIdempotent(doctypes: seq<DocTypeMeta>, db: Db)
    requires AllUniqueFieldnames(db)
    ensures var issues := DetectIssues(doctypes);
            var once := ApplyFixes(issues, db).db;
            var again := ApplyFixes(issues, once);
            && again.db == once
            && again.results.documentTypeFixes == 0
            && again.results.linkFieldFixes == 0
            && again.results.namingSeriesFixes == 0
  {
    DetectedLinkTargetsSpaced(doctypes);
    ApplyFixesIdempotent(DetectIssues(doctypes), db);
  }
}

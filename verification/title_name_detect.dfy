/**
 `TitleNameFixer.detect_issues`: scan the custom doctypes, in order, for a
 document type of "Master" or "Document", for link fields whose target
 contains a space, and for a unique `naming_series` field. Each doctype's
 field list is taken as already parsed from its JSON text.
 */
module TitleNameDetect {
  import opened Frappe

  /** One entry of a doctype's field list; a missing key reads as "" or 0. */
  datatype FieldMeta = FieldMeta(fieldname: string, fieldtype: string, options: string, fieldLabel: string, unique: int)

  datatype DocTypeMeta = DocTypeMeta(name: string, documentType: string, moduleName: string, fields: seq<FieldMeta>)

  datatype DocTypeIssue = DocTypeIssue(doctype: string, current: string, moduleName: string)

  datatype LinkIssue = LinkIssue(doctype: string, field: string, options: string, fieldLabel: string)

  /** The three issue lists; a naming_series issue is the doctype's name. */
  datatype Issues = Issues(documentType: seq<DocTypeIssue>, linkField: seq<LinkIssue>, namingSeries: seq<string>)

  predicate DocumentTypeFlagged(dt: DocTypeMeta) {
    dt.documentType in {"Master", "Document"}
  }

  predicate LinkFlagged(f: FieldMeta) {
    f.fieldtype == "Link" && Filled(f.options) && ' ' in f.options
  }

  predicate NamingSeriesFlagged(f: FieldMeta) {
    f.fieldname == "naming_series" && f.unique == 1
  }

  function DocTypeIssueOf(dt: DocTypeMeta): DocTypeIssue {
    DocTypeIssue(dt.name, dt.documentType, dt.moduleName)
  }

  function LinkIssueOf(dt: DocTypeMeta, f: FieldMeta): LinkIssue {
    LinkIssue(dt.name, f.fieldname, f.options, f.fieldLabel)
  }

  /** Issue lists placed one after the other, list by list. */
  function Append(a: Issues, b: Issues): Issues {
    Issues(a.documentType + b.documentType, a.linkField + b.linkField, a.namingSeries + b.namingSeries)
  }

  const NoIssues: Issues := Issues([], [], [])

  /** What one field contributes: a link issue, a naming_series issue, both or neither. */
  function FieldIssue(dt: DocTypeMeta, f: FieldMeta): Issues {
    Issues([], if LinkFlagged(f) then [LinkIssueOf(dt, f)] else [], if NamingSeriesFlagged(f) then [dt.name] else [])
  }

  /** The field loop of one doctype, in field order. */
  function FieldIssues(dt: DocTypeMeta, fields: seq<FieldMeta>): (r: Issues)
    ensures r.documentType == []
    ensures |r.linkField| <= |fields| && |r.namingSeries| <= |fields|
  {
    if |fields| == 0 then NoIssues
    else Append(FieldIssue(dt, fields[0]), FieldIssues(dt, fields[1..]))
  }

  /**
   A field loop reports a link issue exactly for each flagged link field,
   and a naming_series issue, naming the doctype, exactly when some field is
   a unique naming_series.
   */
  lemma {:induction false} FieldIssuesExact(dt: DocTypeMeta, fields: seq<FieldMeta>)
    ensures forall x :: x in FieldIssues(dt, fields).linkField <==>
              exists j :: 0 <= j < |fields| && LinkFlagged(fields[j]) && x == LinkIssueOf(dt, fields[j])
    ensures forall x :: x in FieldIssues(dt, fields).namingSeries <==>
              x == dt.name && exists j :: 0 <= j < |fields| && NamingSeriesFlagged(fields[j])
    decreases |fields|
  {
    if |fields| > 0 {
      var rest := fields[1..];
      FieldIssuesExact(dt, rest);
      var here, r := FieldIssue(dt, fields[0]), FieldIssues(dt, fields);
      forall x
        ensures x in r.linkField <==> exists j :: 0 <= j < |fields| && LinkFlagged(fields[j]) && x == LinkIssueOf(dt, fields[j])
      {
        if x in r.linkField {
          if x !in here.linkField {
            var j :| 0 <= j < |rest| && LinkFlagged(rest[j]) && x == LinkIssueOf(dt, rest[j]);
            assert rest[j] == fields[j + 1];
          }
        }
        if exists j :: 0 <= j < |fields| && LinkFlagged(fields[j]) && x == LinkIssueOf(dt, fields[j]) {
          var j :| 0 <= j < |fields| && LinkFlagged(fields[j]) && x == LinkIssueOf(dt, fields[j]);
          if j > 0 {
            assert fields[j] == rest[j - 1];
          }
        }
      }
      forall x
        ensures x in r.namingSeries <==> x == dt.name && exists j :: 0 <= j < |fields| && NamingSeriesFlagged(fields[j])
      {
        if x in r.namingSeries {
          if x !in here.namingSeries {
            var j :| 0 <= j < |rest| && NamingSeriesFlagged(rest[j]);
            assert rest[j] == fields[j + 1];
          }
        }
        if x == dt.name && exists j :: 0 <= j < |fields| && NamingSeriesFlagged(fields[j]) {
          var j :| 0 <= j < |fields| && NamingSeriesFlagged(fields[j]);
          if j > 0 {
            assert fields[j] == rest[j - 1];
          }
        }
      }
    }
  }

  /** One doctype's contribution: its document-type issue, then its field issues. */
  function DocTypeIssues(dt: DocTypeMeta): Issues {
    Append(Issues(if DocumentTypeFlagged(dt) then [DocTypeIssueOf(dt)] else [], [], []), FieldIssues(dt, dt.fields))
  }

  /** `detect_issues` over the custom doctypes as `frappe.get_all` lists them. */
  function DetectIssues(doctypes: seq<DocTypeMeta>): (r: Issues)
    ensures |r.documentType| <= |doctypes|
  {
    if |doctypes| == 0 then NoIssues
    else Append(DocTypeIssues(doctypes[0]), DetectIssues(doctypes[1..]))
  }

  /** The scan reports a document-type issue exactly for each doctype whose document type is "Master" or "Document". */
  lemma {:induction false} DetectDocumentTypeExact(doctypes: seq<DocTypeMeta>)
    ensures forall x :: x in DetectIssues(doctypes).documentType <==>
              exists i :: 0 <= i < |doctypes| && DocumentTypeFlagged(doctypes[i]) && x == DocTypeIssueOf(doctypes[i])
    decreases |doctypes|
  {
    if |doctypes| > 0 {
      var rest := doctypes[1..];
      DetectDocumentTypeExact(rest);
      var here, r := DocTypeIssues(doctypes[0]), DetectIssues(doctypes);
      assert r.documentType == here.documentType + DetectIssues(rest).documentType;
      forall x
        ensures x in r.documentType <==> exists i :: 0 <= i < |doctypes| && DocumentTypeFlagged(doctypes[i]) && x == DocTypeIssueOf(doctypes[i])
      {
        if x in r.documentType && x !in here.documentType {
          var i :| 0 <= i < |rest| && DocumentTypeFlagged(rest[i]) && x == DocTypeIssueOf(rest[i]);
          assert doctypes[i + 1] == rest[i];
        }
        if exists i :: 0 <= i < |doctypes| && DocumentTypeFlagged(doctypes[i]) && x == DocTypeIssueOf(doctypes[i]) {
          var i :| 0 <= i < |doctypes| && DocumentTypeFlagged(doctypes[i]) && x == DocTypeIssueOf(doctypes[i]);
          if i > 0 {
            assert doctypes[i] == rest[i - 1];
          }
        }
      }
    }
  }

  /** The scan's link issues are exactly those of the field loops of the doctypes it scans. */
  lemma {:induction false} DetectLinkFieldExact(doctypes: seq<DocTypeMeta>)
    ensures forall x :: x in DetectIssues(doctypes).linkField <==>
              exists i :: 0 <= i < |doctypes| && x in FieldIssues(doctypes[i], doctypes[i].fields).linkField
    decreases |doctypes|
  {
    if |doctypes| > 0 {
      var rest := doctypes[1..];
      DetectLinkFieldExact(rest);
      var here, r := DocTypeIssues(doctypes[0]), DetectIssues(doctypes);
      assert r.linkField == here.linkField + DetectIssues(rest).linkField;
      forall x
        ensures x in r.linkField <==> exists i :: 0 <= i < |doctypes| && x in FieldIssues(doctypes[i], doctypes[i].fields).linkField
      {
        if x in r.linkField && x !in here.linkField {
          var i :| 0 <= i < |rest| && x in FieldIssues(rest[i], rest[i].fields).linkField;
          assert doctypes[i + 1] == rest[i];
        }
        if exists i :: 0 <= i < |doctypes| && x in FieldIssues(doctypes[i], doctypes[i].fields).linkField {
          var i :| 0 <= i < |doctypes| && x in FieldIssues(doctypes[i], doctypes[i].fields).linkField;
          if i > 0 {
            assert doctypes[i] == rest[i - 1];
          }
        }
      }
    }
  }

  /** The scan's naming_series issues are exactly those of the field loops of the doctypes it scans. */
  lemma {:induction false} DetectNamingSeriesExact(doctypes: seq<DocTypeMeta>)
    ensures forall x :: x in DetectIssues(doctypes).namingSeries <==>
              exists i :: 0 <= i < |doctypes| && x in FieldIssues(doctypes[i], doctypes[i].fields).namingSeries
    decreases |doctypes|
  {
    if |doctypes| > 0 {
      var rest := doctypes[1..];
      DetectNamingSeriesExact(rest);
      var here, r := DocTypeIssues(doctypes[0]), DetectIssues(doctypes);
      assert r.namingSeries == here.namingSeries + DetectIssues(rest).namingSeries;
      forall x
        ensures x in r.namingSeries <==> exists i :: 0 <= i < |doctypes| && x in FieldIssues(doctypes[i], doctypes[i].fields).namingSeries
      {
        if x in r.namingSeries && x !in here.namingSeries {
          var i :| 0 <= i < |rest| && x in FieldIssues(rest[i], rest[i].fields).namingSeries;
          assert doctypes[i + 1] == rest[i];
        }
        if exists i :: 0 <= i < |doctypes| && x in FieldIssues(doctypes[i], doctypes[i].fields).namingSeries {
          var i :| 0 <= i < |doctypes| && x in FieldIssues(doctypes[i], doctypes[i].fields).namingSeries;
          if i > 0 {
            assert doctypes[i] == rest[i - 1];
          }
        }
      }
    }
  }

  /** Scanning two runs of doctypes one after the other lists the first run's issues first, list by list. */
  lemma {:induction false} DetectIssuesConcat(a: seq<DocTypeMeta>, b: seq<DocTypeMeta>)
    ensures DetectIssues(a + b) == Append(DetectIssues(a), DetectIssues(b))
    decreases |a|
  {
    if |a| == 0 {
      assert a + b == b;
    } else {
      var h, ab := DocTypeIssues(a[0]), a + b;
      TailOfConcat(a, b);
      DetectIssuesUnfold(ab);
      DetectIssuesConcat(a[1..], b);
      AppendAssociative(h, DetectIssues(a[1..]), DetectIssues(b));
    }
  }

  /** Scanning two runs of fields lists the first run's issues first, one entry per flagged field, in field order. */
  lemma {:induction false} FieldIssuesConcat(dt: DocTypeMeta, a: seq<FieldMeta>, b: seq<FieldMeta>)
    ensures FieldIssues(dt, a + b) == Append(FieldIssues(dt, a), FieldIssues(dt, b))
    decreases |a|
  {
    if |a| == 0 {
      assert a + b == b;
      assert Append(FieldIssues(dt, a), FieldIssues(dt, b)) == FieldIssues(dt, b);
    } else {
      var ab := a + b;
      assert ab[0] == a[0] && ab[1..] == a[1..] + b;
      FieldIssuesConcat(dt, a[1..], b);
      AppendAssociative(FieldIssue(dt, a[0]), FieldIssues(dt, a[1..]), FieldIssues(dt, b));
    }
  }

  lemma TailOfConcat(a: seq<DocTypeMeta>, b: seq<DocTypeMeta>)
    requires |a| > 0
    ensures (a + b)[0] == a[0] && (a + b)[1..] == a[1..] + b
  {
  }

  lemma DetectIssuesUnfold(doctypes: seq<DocTypeMeta>)
    requires |doctypes| > 0
    ensures DetectIssues(doctypes) == Append(DocTypeIssues(doctypes[0]), DetectIssues(doctypes[1..]))
  {
  }

  lemma AppendAssociative(a: Issues, b: Issues, c: Issues)
    ensures Append(a, Append(b, c)) == Append(Append(a, b), c)
  {
    assert a.documentType + (b.documentType + c.documentType) == (a.documentType + b.documentType) + c.documentType;
    assert a.linkField + (b.linkField + c.linkField) == (a.linkField + b.linkField) + c.linkField;
    assert a.namingSeries + (b.namingSeries + c.namingSeries) == (a.namingSeries + b.namingSeries) + c.namingSeries;
  }
}

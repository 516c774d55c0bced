/**
 The Batch AMB server controller: `before_save` copies the item name,
 `validate` checks the dates and then the quantity, `create_spc_data_point`
 maps a batch onto a new SPC Data Point, and the two bulk endpoints create
 numbered batches and approve named ones, counting the successes.
 */
module BatchAmb {
  import opened Frappe
  import opened Dates
  import opened Text
  import opened SpcDataPoint

  datatype TestResult = TestResult(status: string)

  /** A row of the batch's SPC parameter table. */
  datatype BatchParameter = BatchParameter(
    parameterName: string,
    actualValue: Option<real>,
    upperLimit: Option<real>,
    lowerLimit: Option<real>,
    status: string)

  datatype Batch = Batch(
    name: string,
    batchId: string,
    itemCode: string,
    itemName: string,
    productionDate: string,
    expiryDate: string,
    quantity: Option<real>,
    qualityStatus: string,
    totalGrossWeight: Option<real>,
    totalTaraWeight: Option<real>,
    totalNetWeight: Option<real>,
    qualityTestResults: seq<TestResult>,
    batchParameters: seq<BatchParameter>)

  /** `before_save`; `lookup` is `frappe.get_value("Item", item_code, "item_name")`. */
  function BeforeSave(b: Batch, lookup: string -> Option<string>): (r: Batch)
    ensures r.(itemName := b.itemName) == b
    ensures Filled(b.itemName) ==> r == b
    ensures !Filled(b.itemCode) ==> r == b
    ensures Filled(b.itemCode) && !Filled(b.itemName) && lookup(b.itemCode).Some? && Filled(lookup(b.itemCode).value)
            ==> r.itemName == lookup(b.itemCode).value
    ensures r.itemName != b.itemName ==> lookup(b.itemCode) == Some(r.itemName)
  {
    b.(itemName := Populate(b.itemName, b.itemCode, lookup))
  }

  datatype BatchError = ExpiryBeforeProduction | NegativeQuantity

  /** Both dates are set and the expiry date sorts strictly before the production date. */
  predicate ExpiresBeforeProduced(b: Batch) {
    Filled(b.productionDate) && Filled(b.expiryDate) && Before(b.expiryDate, b.productionDate)
  }

  /** `validate`: the date check runs first, so its error wins when both checks fail. */
  function Validate(b: Batch): (r: Outcome<Batch, BatchError>)
    ensures r == Thrown(ExpiryBeforeProduction) <==> ExpiresBeforeProduced(b)
    ensures r == Thrown(NegativeQuantity) <==>
              !ExpiresBeforeProduced(b) && b.quantity.Some? && b.quantity.value < 0.0
    ensures r.Saved? ==> r.doc == b && !r.advised
  {
    if ExpiresBeforeProduced(b) then Thrown(ExpiryBeforeProduction)
    else if Truthy(b.quantity) && b.quantity.value < 0.0 then Thrown(NegativeQuantity)
    else Saved(b, false)
  }

  /** Expiry on the production date passes the date check. */
  lemma SameDayExpiryAccepted(b: Batch)
    requires b.expiryDate == b.productionDate
    ensures Validate(b) != Thrown(ExpiryBeforeProduction)
  {
    BeforeIrreflexive(b.productionDate);
  }

  /** Quantity 0 and a missing quantity are both accepted. */
  lemma ZeroOrMissingQuantityAccepted(b: Batch)
    requires b.quantity == None || b.quantity == Some(0.0)
    ensures Validate(b) != Thrown(NegativeQuantity)
  {
  }

  /**
   `set_missing_values` of `create_spc_data_point`: the mapped data point
   refers back to the batch, is stamped with the current time, and waits in
   status "Pending"; its other fields are as the mapper produced them.
   */
  function SetMissingValues(source: Batch, target: DataPoint, now: string): (r: DataPoint)
    ensures r.batchReference == source.name
    ensures r.qualityStatus == "Pending"
    ensures r.measurementTime == now
    ensures r.parameter == target.parameter && r.parameterName == target.parameterName && r.dataValue == target.dataValue
  {
    target.(measurementTime := now, batchReference := source.name, qualityStatus := "Pending")
  }

  const BatchIdPrefix: string := "AMB-BATCH-"

  /** `f"AMB-BATCH-{nowdate()}-{i+1:03d}"`. */
  function BatchId(today: string, i: nat): (id: string)
    ensures |id| >= |BatchIdPrefix| + |today| + 4
    ensures id[..|BatchIdPrefix|] == BatchIdPrefix
  {
    BatchIdPrefix + today + "-" + ZeroPad(i + 1, 3)
  }

  /** Below a thousand batches a day the number part is exactly three digits. */
  lemma BatchIdShape(today: string, i: nat)
    requires i + 1 < 1000
    ensures |BatchId(today, i)| == |BatchIdPrefix| + |today| + 4
  {
    ZeroPadExactWidth(i + 1, 3);
  }

  /** The id reads back as its parts: the date, a dash, then the number `i + 1`. */
  lemma BatchIdParts(today: string, i: nat)
    ensures var id, h := BatchId(today, i), |BatchIdPrefix| + |today|;
      id[|BatchIdPrefix|..h] == today && id[h] == '-' && ParseDecimal(id[h + 1..]) == i + 1
  {
    var id, h := BatchId(today, i), |BatchIdPrefix| + |today|;
    assert id[h + 1..] == ZeroPad(i + 1, 3);
    ZeroPadRoundTrip(i + 1, 3);
  }

  /** Different loop positions on one day give different batch ids. */
  lemma BatchIdInjective(today: string, i: nat, j: nat)
    requires BatchId(today, i) == BatchId(today, j)
    ensures i == j
  {
    var head := BatchIdPrefix + today + "-";
    assert BatchId(today, i)[|head|..] == ZeroPad(i + 1, 3);
    assert BatchId(today, j)[|head|..] == ZeroPad(j + 1, 3);
    ZeroPadInjective(i + 1, j + 1, 3);
  }

  /** The record `create_multiple_batches` builds for loop position `i`. */
  function NewBatch(today: string, itemCode: string, i: nat): (b: Batch)
    ensures b.batchId == BatchId(today, i)
    ensures b.itemCode == itemCode && b.productionDate == today && b.qualityStatus == "Pending"
  {
    Batch("", BatchId(today, i), itemCode, "", today, "", None, "Pending", None, None, None, [], [])
  }

  /** Every new batch passes `validate`: an insert can only fail for reasons outside these hooks. */
  lemma NewBatchValid(today: string, itemCode: string, i: nat)
    ensures Validate(NewBatch(today, itemCode, i)).Saved?
  {
  }

  /**
   The loop positions below `n` whose new batch the store accepts, in
   increasing order.
   */
  function InsertedPositions(today: string, itemCode: string, n: nat, insert: Batch -> bool): (ps: seq<nat>)
    ensures |ps| <= n
    ensures forall k :: 0 <= k < |ps| ==> ps[k] < n && insert(NewBatch(today, itemCode, ps[k]))
    ensures forall k, l :: 0 <= k < l < |ps| ==> ps[k] < ps[l]
  {
    if n == 0 then []
    else
      var ps := InsertedPositions(today, itemCode, n - 1, insert);
      if insert(NewBatch(today, itemCode, n - 1)) then ps + [n - 1] else ps
  }

  /** Every accepted position is listed: a position below `n` is missing only when its insert fails. */
  lemma {:induction false} InsertedPositionsComplete(today: string, itemCode: string, n: nat, insert: Batch -> bool, p: nat)
    requires p < n && insert(NewBatch(today, itemCode, p))
    ensures p in InsertedPositions(today, itemCode, n, insert)
  {
    if p < n - 1 {
      InsertedPositionsComplete(today, itemCode, n - 1, insert, p);
    }
  }

  /**
   `create_multiple_batches`: try to insert `count` numbered batches (none
   for a negative count). `insert` says whether the framework's insert of a
   record succeeds; a failed insert is skipped. The result counts the
   successes and lists them, in loop order, with pairwise distinct ids.
   */
  method CreateMultipleBatches(count: int, itemCode: string, today: string, insert: Batch -> bool)
    returns (created: nat, batches: seq<Batch>)
    ensures created == |batches|
    ensures created <= (if count < 0 then 0 else count)
    ensures var ps := InsertedPositions(today, itemCode, if count < 0 then 0 else count, insert);
            |batches| == |ps| && forall k :: 0 <= k < |batches| ==> batches[k] == NewBatch(today, itemCode, ps[k])
    ensures forall k :: 0 <= k < |batches| ==>
              insert(batches[k]) && batches[k].itemCode == itemCode
              && batches[k].productionDate == today && batches[k].qualityStatus == "Pending"
    ensures forall k, l :: 0 <= k < l < |batches| ==> batches[k].batchId != batches[l].batchId
  {
    var n: nat := if count < 0 then 0 else count;
    created, batches := 0, [];
    var i := 0;
    while i < n
      invariant 0 <= i <= n
      invariant created == |batches| == |InsertedPositions(today, itemCode, i, insert)|
      invariant forall k :: 0 <= k < |batches| ==>
                  batches[k] == NewBatch(today, itemCode, InsertedPositions(today, itemCode, i, insert)[k])
    {
      var b := NewBatch(today, itemCode, i);
      if insert(b) {
        batches := batches + [b];
        created := created + 1;
      }
      i := i + 1;
    }
    DistinctPositionsDistinctIds(today, itemCode, batches, InsertedPositions(today, itemCode, n, insert));
  }

  /** Batches built for strictly increasing loop positions have pairwise distinct ids. */
  lemma DistinctPositionsDistinctIds(today: string, itemCode: string, batches: seq<Batch>, positions: seq<nat>)
    requires |batches| == |positions|
    requires forall k :: 0 <= k < |batches| ==> batches[k] == NewBatch(today, itemCode, positions[k])
    requires forall k, l :: 0 <= k < l < |positions| ==> positions[k] < positions[l]
    ensures forall k, l :: 0 <= k < l < |batches| ==> batches[k].batchId != batches[l].batchId
  {
    forall k, l | 0 <= k < l < |batches|
      ensures batches[k].batchId != batches[l].batchId
    {
      if batches[k].batchId == batches[l].batchId {
        BatchIdInjective(today, positions[k], positions[l]);
      }
    }
  }

  /** How many of `names` are found and then saved as approved. */
  function ApprovedCount(names: seq<string>, fetch: string -> Option<Batch>, save: Batch -> bool): (c: nat)
    ensures c <= |names|
  {
    if |names| == 0 then 0
    else
      var last := names[|names| - 1];
      ApprovedCount(names[..|names| - 1], fetch, save)
      + (if fetch(last).Some? && save(fetch(last).value.(qualityStatus := "Approved")) then 1 else 0)
  }

  /**
   `bulk_approve_batches`: fetch each named batch, set it to "Approved" and
   save it; a failed fetch or save is skipped. `fetch` is
   `frappe.get_doc("Batch AMB", name)` and `save` whether the framework's
   save of the changed record succeeds.
   */
  method BulkApproveBatches(names: seq<string>, fetch: string -> Option<Batch>, save: Batch -> bool)
    returns (approved: nat, saved: seq<Batch>)
    ensures approved == |saved| <= |names|
    ensures approved == ApprovedCount(names, fetch, save)
    ensures forall k :: 0 <= k < |saved| ==> saved[k].qualityStatus == "Approved" && save(saved[k])
    ensures forall k :: 0 <= k < |saved| ==>
              exists i :: 0 <= i < |names| && fetch(names[i]).Some? && saved[k] == fetch(names[i]).value.(qualityStatus := "Approved")
  {
    approved, saved := 0, [];
    var i := 0;
    while i < |names|
      invariant 0 <= i <= |names|
      invariant approved == |saved| <= i
      invariant approved == ApprovedCount(names[..i], fetch, save)
      invariant forall k :: 0 <= k < |saved| ==> saved[k].qualityStatus == "Approved" && save(saved[k])
      invariant forall k :: 0 <= k < |saved| ==>
                  exists j :: 0 <= j < i && fetch(names[j]).Some? && saved[k] == fetch(names[j]).value.(qualityStatus := "Approved")
    {
      assert names[..i + 1][..i] == names[..i];
      var found := fetch(names[i]);
      if found.Some? {
        var b := found.value.(qualityStatus := "Approved");
        if save(b) {
          saved := saved + [b];
          approved := approved + 1;
        }
      }
      i := i + 1;
    }
    assert names[..|names|] == names;
  }
}

/**
  CorrelatedPluralTableGroup: the table group a subquery uses for a plural
  attribute of the outer query. Besides its own correlated lookup it may hold
  an index table group and an element table group, each registered once, and
  it resolves table references against the three in a fixed order.
 */
module TableGroups {
  import opened Wrappers

  /** A path in the domain model. Its structure is not part of this model; ancestry is asked of Collaborators.isParent. */
  datatype NavigablePath = NavigablePath(fullPath: string)

  datatype TableReference = TableReference(tableExpression: string, identificationVariable: string)

  /** A table group, seen from here only through its navigable path and its own lookup. */
  datatype TableGroup = TableGroup(navigablePath: NavigablePath, sourceAlias: string)

  datatype TableGroupJoin = TableGroupJoin(joinedGroup: TableGroup)

  /** The arguments of a table-reference lookup; a null navigable path is None. */
  datatype ReferenceRequest = ReferenceRequest(
    navigablePath: Option<NavigablePath>,
    tableExpression: string,
    allowFkOptimization: bool,
    resolve: bool)

  /**
    The lookups this class delegates to, whose bodies are not part of this model:
    - correlatedLookup: the inherited CorrelatedTableGroup.getTableReferenceInternal
    - groupLookup: TableGroup.getTableReference on a registered group
    - isParent: NavigablePath.isParent, receiver first
   */
  datatype Collaborators = Collaborators(
    correlatedLookup: ReferenceRequest -> Option<TableReference>,
    groupLookup: (TableGroup, ReferenceRequest) -> Option<TableReference>,
    isParent: (NavigablePath, NavigablePath) -> bool)

  /** A slot takes part in a lookup when it is registered and the path is null or lies under the group's path. */
  predicate Admits(c: Collaborators, slot: Option<TableGroup>, path: Option<NavigablePath>)
  {
    slot.Some? && (path.None? || c.isParent(slot.value.navigablePath, path.value))
  }

  /** The first present entry of a list of lookup results, in order; None when all are absent. */
  function FirstFound<T>(candidates: seq<Option<T>>): Option<T>
    decreases |candidates|
  {
    if |candidates| == 0 then None
    else if candidates[0].Some? then candidates[0]
    else FirstFound(candidates[1..])
  }

  /** FirstFound is the earliest hit: every entry before it is absent, and it is absent only when all entries are. */
  lemma {:induction false} FirstFoundIsEarliestHit<T>(candidates: seq<Option<T>>)
    ensures FirstFound(candidates).None? <==> forall i :: 0 <= i < |candidates| ==> candidates[i].None?
    ensures FirstFound(candidates).Some? ==>
      exists k :: 0 <= k < |candidates| && candidates[k] == FirstFound(candidates) &&
        forall i :: 0 <= i < k ==> candidates[i].None?
    decreases |candidates|
  {
    if |candidates| > 0 && candidates[0].None? {
      var rest := candidates[1..];
      FirstFoundIsEarliestHit(rest);
      if FirstFound(rest).Some? {
        var k :| 0 <= k < |rest| && rest[k] == FirstFound(rest) && forall i :: 0 <= i < k ==> rest[i].None?;
        assert candidates[k + 1] == FirstFound(candidates);
        assert forall i :: 0 <= i < k + 1 ==> candidates[i].None? by {
          forall i | 0 <= i < k + 1
            ensures candidates[i].None?
          {
            if i > 0 { assert candidates[i] == rest[i - 1]; }
          }
        }
      } else {
        assert forall i :: 0 <= i < |candidates| ==> candidates[i].None? by {
          forall i | 0 <= i < |candidates|
            ensures candidates[i].None?
          {
            if i > 0 { assert candidates[i] == rest[i - 1]; }
          }
        }
      }
    } else if |candidates| > 0 {
      assert candidates[0] == FirstFound(candidates);
    }
  }

  /**
    The lookup results in the order the group consults them: its own correlated
    lookup, then each registered group whose path admits the request.
   */
  function Candidates(c: Collaborators, index: Option<TableGroup>, element: Option<TableGroup>, request: ReferenceRequest): seq<Option<TableReference>>
  {
    [c.correlatedLookup(request)]
    + (if Admits(c, index, request.navigablePath) then [c.groupLookup(index.value, request)] else [])
    + (if Admits(c, element, request.navigablePath) then [c.groupLookup(element.value, request)] else [])
  }

  class CorrelatedPluralTableGroup {
    /** The outer query's table group this one is correlated with. */
    const correlatedTableGroup: TableGroup
    var indexTableGroup: Option<TableGroup>
    var elementTableGroup: Option<TableGroup>

    /** A new group has neither an index nor an element table group. */
    constructor (correlatedTableGroup: TableGroup)
      ensures this.correlatedTableGroup == correlatedTableGroup
      ensures GetIndexTableGroup() == None && GetElementTableGroup() == None
    {
      this.correlatedTableGroup := correlatedTableGroup;
      indexTableGroup := None;
      elementTableGroup := None;
    }

    function GetElementTableGroup(): Option<TableGroup>
      reads this
    {
      elementTableGroup
    }

    function GetIndexTableGroup(): Option<TableGroup>
      reads this
    {
      indexTableGroup
    }

    /** Registers the joined group of the index join; the index slot must still be empty. */
    method RegisterIndexTableGroup(indexTableGroupJoin: TableGroupJoin)
      requires GetIndexTableGroup() == None
      modifies this
      ensures GetIndexTableGroup() == Some(indexTableGroupJoin.joinedGroup)
      ensures GetElementTableGroup() == old(GetElementTableGroup())
    {
      indexTableGroup := Some(indexTableGroupJoin.joinedGroup);
    }

    /** Registers the joined group of the element join; the element slot must still be empty. */
    method RegisterElementTableGroup(elementTableGroupJoin: TableGroupJoin)
      requires GetElementTableGroup() == None
      modifies this
      ensures GetElementTableGroup() == Some(elementTableGroupJoin.joinedGroup)
      ensures GetIndexTableGroup() == old(GetIndexTableGroup())
    {
      elementTableGroup := Some(elementTableGroupJoin.joinedGroup);
    }

    /**
      getTableReferenceInternal: the correlated lookup wins when it finds a
      reference; otherwise an admitted index group's reference, then an admitted
      element group's; null when none finds one. Every delegate gets the
      request unchanged.
     */
    function TableReferenceInternal(c: Collaborators, request: ReferenceRequest): (r: Option<TableReference>)
      reads this
      ensures c.correlatedLookup(request).Some? ==> r == c.correlatedLookup(request)
      ensures c.correlatedLookup(request).None? && Admits(c, indexTableGroup, request.navigablePath)
              && c.groupLookup(indexTableGroup.value, request).Some?
              ==> r == c.groupLookup(indexTableGroup.value, request)
      ensures r.Some? ==> (
              || r == c.correlatedLookup(request)
              || (Admits(c, indexTableGroup, request.navigablePath) && r == c.groupLookup(indexTableGroup.value, request))
              || (Admits(c, elementTableGroup, request.navigablePath) && r == c.groupLookup(elementTableGroup.value, request)))
      ensures r.None? <==>
              && c.correlatedLookup(request).None?
              && (Admits(c, indexTableGroup, request.navigablePath) ==> c.groupLookup(indexTableGroup.value, request).None?)
              && (Admits(c, elementTableGroup, request.navigablePath) ==> c.groupLookup(elementTableGroup.value, request).None?)
    {
      var tableReference := c.correlatedLookup(request);
      if tableReference.Some? then
        tableReference
      else if indexTableGroup.Some?
              && (request.navigablePath.None? || c.isParent(indexTableGroup.value.navigablePath, request.navigablePath.value))
              && c.groupLookup(indexTableGroup.value, request).Some? then
        c.groupLookup(indexTableGroup.value, request)
      else if elementTableGroup.Some?
              && (request.navigablePath.None? || c.isParent(elementTableGroup.value.navigablePath, request.navigablePath.value))
              && c.groupLookup(elementTableGroup.value, request).Some? then
        c.groupLookup(elementTableGroup.value, request)
      else
        None
    }
  }

  /** The lookup returns the earliest hit among the correlated lookup and the admitted groups, in that order. */
  lemma TableReferenceInternalIsFirstCandidate(g: CorrelatedPluralTableGroup, c: Collaborators, request: ReferenceRequest)
    ensures g.TableReferenceInternal(c, request) == FirstFound(Candidates(c, g.indexTableGroup, g.elementTableGroup, request))
  {
    var cs := Candidates(c, g.indexTableGroup, g.elementTableGroup, request);
    var path := request.navigablePath;
    assert cs[0] == c.correlatedLookup(request);
    if cs[0].None? {
      var rest := cs[1..];
      var tail := if Admits(c, g.elementTableGroup, path) then [c.groupLookup(g.elementTableGroup.value, request)] else [];
      assert FirstFound(tail) == if Admits(c, g.elementTableGroup, path) then c.groupLookup(g.elementTableGroup.value, request) else None by {
        if |tail| == 1 && tail[0].None? { assert FirstFound(tail) == FirstFound(tail[1..]); }
      }
      assert FirstFound(cs) == FirstFound(rest);
      if Admits(c, g.indexTableGroup, path) {
        assert rest[0] == c.groupLookup(g.indexTableGroup.value, request);
        assert rest[1..] == tail;
      } else {
        assert rest == tail;
      }
    }
  }

  /**
    A group that the path does not admit is never consulted: two sets of
    collaborators that agree on the correlated lookup, on the path test and on
    the admitted groups' lookups give the same reference.
   */
  lemma InadmissibleGroupsNotConsulted(g: CorrelatedPluralTableGroup, c: Collaborators, otherGroupLookup: (TableGroup, ReferenceRequest) -> Option<TableReference>, request: ReferenceRequest)
    requires Admits(c, g.indexTableGroup, request.navigablePath) ==>
      otherGroupLookup(g.indexTableGroup.value, request) == c.groupLookup(g.indexTableGroup.value, request)
    requires Admits(c, g.elementTableGroup, request.navigablePath) ==>
      otherGroupLookup(g.elementTableGroup.value, request) == c.groupLookup(g.elementTableGroup.value, request)
    ensures g.TableReferenceInternal(c.(groupLookup := otherGroupLookup), request) == g.TableReferenceInternal(c, request)
  {
  }

  /**
    The element group's reference is returned when the correlated lookup finds
    nothing and the index group either is not registered, is outside the
    path's ancestry, or finds nothing itself.
   */
  lemma ElementGroupReachedAfterIndex(g: CorrelatedPluralTableGroup, c: Collaborators, request: ReferenceRequest)
    requires c.correlatedLookup(request).None?
    requires Admits(c, g.indexTableGroup, request.navigablePath) ==> c.groupLookup(g.indexTableGroup.value, request).None?
    requires Admits(c, g.elementTableGroup, request.navigablePath)
    ensures g.TableReferenceInternal(c, request) == c.groupLookup(g.elementTableGroup.value, request)
  {
  }
}

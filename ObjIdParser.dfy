/**
 * Parsing of object IDs typed on the command line: a full 16-digit ID is returned; a
 * partial one at the end of the input is turned into the inclusive range of IDs it is a
 * prefix of, and the objects in that range are offered as completions.
 */
module ObjIdParser {
  import opened Wrappers
  import opened ObjIds

  /** At most this many completions are offered. */
  const MaxCompleteObjects: nat := 100

  const InvalidObjectId: string := "invalid object ID"

  /** What a parse gives: an object ID and the input left after it, or an error carrying completions. */
  datatype ParseResult = Parsed(id: ObjId, rest: string) | ParseError(message: string, completions: seq<string>)

  /**
   * The transaction the completions are looked up in: for each schema version, the storage
   * IDs of its object types, and for each storage ID all objects of that type, in ID order.
   */
  datatype Tx = Tx(schemas: seq<seq<int>>, objects: map<int, seq<ObjId>>)

  /** Strictly increasing object IDs: the iteration order of a navigable set of IDs. */
  ghost predicate Ascending(s: seq<ObjId>) {
    forall i, j :: 0 <= i < j < |s| ==> s[i].value < s[j].value
  }

  ghost predicate TxValid(tx: Tx) {
    forall sid :: sid in tx.objects ==> Ascending(tx.objects[sid])
  }

  /** `tx.getAll(storageId)`. */
  function GetAll(tx: Tx, storageId: int): seq<ObjId> {
    if storageId in tx.objects then tx.objects[storageId] else []
  }

  // ---------------------------------------------------------------------------------------
  // The token and its padding

  /** How many characters the pattern `[0-9A-Fa-f]{0,16}` matches at the start of `s`: the longest run of hex digits, at most `cap`. */
  function TokenLength(s: string, cap: nat): (k: nat)
    ensures k <= cap && k <= |s| && IsHex(s[..k])
    ensures k < cap && k < |s| ==> !IsHexDigit(s[k])
  {
    if cap == 0 || s == [] || !IsHexDigit(s[0]) then 0
    else
      var k := 1 + TokenLength(s[1..], cap - 1);
      assert s[..k] == [s[0]] + s[1..][..k - 1];
      k
  }

  /** The token right-padded with `c` to the length of an object ID. */
  function Pad(token: string, c: char): (s: string)
    requires |token| <= IdLength
    ensures |s| == IdLength && s[..|token|] == token
    ensures forall i :: |token| <= i < IdLength ==> s[i] == c
  {
    token + seq(IdLength - |token|, _ => c)
  }

  // ---------------------------------------------------------------------------------------
  // Completions

  /** A type is searched unless its storage ID lies below that of the lower bound or above that of the upper bound. */
  predicate TypeKept(rules: IdRules, min: Option<ObjId>, max: Option<ObjId>, storageId: int) {
    !((min.Some? && storageId < StorageId(rules, min.value)) || (max.Some? && storageId > StorageId(rules, max.value)))
  }

  /** Within the inclusive bounds that exist. */
  predicate InRange(min: Option<ObjId>, max: Option<ObjId>, id: ObjId) {
    (min.Some? ==> min.value.value <= id.value) && (max.Some? ==> id.value <= max.value.value)
  }

  function Filter(s: seq<ObjId>, keep: ObjId -> bool): (r: seq<ObjId>)
    ensures forall x :: x in r <==> x in s && keep(x)
  {
    if s == [] then [] else (if keep(s[0]) then [s[0]] else []) + Filter(s[1..], keep)
  }

  /** `tailSet(min, true)`: the IDs of the set from `min` up, `min` included, in the set's order. */
  function TailSet(s: seq<ObjId>, min: ObjId): (r: seq<ObjId>)
    ensures forall x :: x in r <==> x in s && min.value <= x.value
    ensures Ascending(s) ==> Ascending(r)
  {
    FilterAscending(s, (x: ObjId) => min.value <= x.value);
    Filter(s, (x: ObjId) => min.value <= x.value)
  }

  /** `headSet(max, true)`: the IDs of the set up to `max`, `max` included, in the set's order. */
  function HeadSet(s: seq<ObjId>, max: ObjId): (r: seq<ObjId>)
    ensures forall x :: x in r <==> x in s && x.value <= max.value
    ensures Ascending(s) ==> Ascending(r)
  {
    FilterAscending(s, (x: ObjId) => x.value <= max.value);
    Filter(s, (x: ObjId) => x.value <= max.value)
  }

  /** The ID set gathered for one object type with the given storage ID. */
  function TypeIdSet(rules: IdRules, min: Option<ObjId>, max: Option<ObjId>, tx: Tx, storageId: int): seq<ObjId> {
    var all := GetAll(tx, storageId);
    var tail := if min.Some? then TailSet(all, min.value) else all;
    if max.Some? then HeadSet(tail, max.value) else tail
  }

  /** The ID sets gathered for the kept types among `types`, in order. */
  function TypeIdSets(rules: IdRules, min: Option<ObjId>, max: Option<ObjId>, tx: Tx, types: seq<int>): seq<seq<ObjId>> {
    if types == [] then []
    else
      var last := types[|types| - 1];
      TypeIdSets(rules, min, max, tx, types[..|types| - 1])
        + (if TypeKept(rules, min, max, last) then [TypeIdSet(rules, min, max, tx, last)] else [])
  }

  /** The ID sets gathered over all object types of all the given schemas, in order. */
  function IdSets(rules: IdRules, min: Option<ObjId>, max: Option<ObjId>, tx: Tx, schemas: seq<seq<int>>): seq<seq<ObjId>> {
    if schemas == [] then []
    else IdSets(rules, min, max, tx, schemas[..|schemas| - 1]) + TypeIdSets(rules, min, max, tx, schemas[|schemas| - 1])
  }

  /** The ascending union of two ascending ID sequences: it holds the IDs of both, and no others. */
  function Merge(a: seq<ObjId>, b: seq<ObjId>): (r: seq<ObjId>)
    ensures forall x :: x in r <==> x in a || x in b
    decreases |a| + |b|
  {
    if a == [] then b
    else if b == [] then a
    else
      assert a == [a[0]] + a[1..] && b == [b[0]] + b[1..];
      if a[0].value < b[0].value then [a[0]] + Merge(a[1..], b)
      else if b[0].value < a[0].value then [b[0]] + Merge(a, b[1..])
      else [a[0]] + Merge(a[1..], b[1..])
  }

  /** `NavigableSets.union(idSets)`, iterated: the union of all the sets holds the IDs found in some set, and no others. */
  function UnionAll(sets: seq<seq<ObjId>>): (r: seq<ObjId>)
    ensures forall x :: x in r <==> InSome(sets, x)
  {
    if sets == [] then []
    else
      InSomeLast(sets);
      Merge(UnionAll(sets[..|sets| - 1]), sets[|sets| - 1])
  }

  /** `Iterables.limit(s, n)`. */
  function Limit(s: seq<ObjId>, n: nat): (r: seq<ObjId>)
    ensures |r| <= n && |r| <= |s| && r == s[..|r|]
    ensures |s| <= n ==> r == s
  {
    if |s| <= n then s else s[..n]
  }

  /** The IDs offered, before conversion to strings. */
  function CompletionIds(rules: IdRules, min: Option<ObjId>, max: Option<ObjId>, tx: Tx): seq<ObjId> {
    var sets := IdSets(rules, min, max, tx, tx.schemas);
    if sets == [] then [] else Limit(UnionAll(sets), MaxCompleteObjects)
  }

  function IdStrings(ids: seq<ObjId>): (r: seq<string>)
    ensures |r| == |ids| && forall i :: 0 <= i < |ids| ==> r[i] == IdString(ids[i])
  {
    if ids == [] then [] else [IdString(ids[0])] + IdStrings(ids[1..])
  }

  /** The completions one run of the finder leaves behind. */
  function Completions(rules: IdRules, min: Option<ObjId>, max: Option<ObjId>, tx: Tx): seq<string> {
    IdStrings(CompletionIds(rules, min, max, tx))
  }

  /** Finds the object IDs in a range, for completion. */
  class CompletionFinder {
    const rules: IdRules
    const min: Option<ObjId>
    const max: Option<ObjId>
    var completions: seq<string>

    constructor (rules: IdRules, min: Option<ObjId>, max: Option<ObjId>)
      ensures this.rules == rules && this.min == min && this.max == max && completions == []
    {
      this.rules := rules;
      this.min := min;
      this.max := max;
      completions := [];
    }

    /** `run`: starts from an empty list, so repeating a run (as a retried action) gives the same list. */
    method Run(tx: Tx)
      modifies this
      ensures completions == Completions(rules, min, max, tx)
    {
      completions := [];
      var idSets := GatherIdSets(tx);
      CompletionsOfSets(rules, min, max, tx, idSets);
      if idSets != [] {
        AddCompletions(Limit(UnionAll(idSets), MaxCompleteObjects));
      }
    }

    /** The last loop of `run`: appends the string form of each ID, in order. */
    method AddCompletions(ids: seq<ObjId>)
      modifies this
      ensures completions == old(completions) + IdStrings(ids)
    {
      for i := 0 to |ids|
        invariant completions == old(completions) + IdStrings(ids[..i])
      {
        IdStringsAppend(ids[..i], ids[i]);
        assert ids[..i + 1] == ids[..i] + [ids[i]];
        completions := completions + [IdString(ids[i])];
      }
      assert ids[..|ids|] == ids;
    }

    /** The nested loops of `run` over the schemas and their object types, gathering one ID set per kept type. */
    method GatherIdSets(tx: Tx) returns (idSets: seq<seq<ObjId>>)
      ensures idSets == IdSets(rules, min, max, tx, tx.schemas)
    {
      idSets := [];
      for s := 0 to |tx.schemas|
        invariant idSets == IdSets(rules, min, max, tx, tx.schemas[..s])
      {
        idSets := GatherSchema(tx, tx.schemas[s], idSets);
        IdSetsStep(rules, min, max, tx, tx.schemas, s);
      }
      assert tx.schemas[..|tx.schemas|] == tx.schemas;
    }

    /** The inner loop of `run`: appends the ID sets of the kept object types of one schema. */
    method GatherSchema(tx: Tx, types: seq<int>, idSets0: seq<seq<ObjId>>) returns (idSets: seq<seq<ObjId>>)
      ensures idSets == idSets0 + TypeIdSets(rules, min, max, tx, types)
    {
      idSets := idSets0;
      for t := 0 to |types|
        invariant idSets == idSets0 + TypeIdSets(rules, min, max, tx, types[..t])
      {
        var storageId := types[t];
        TypeIdSetsStep(rules, min, max, tx, types, t);
        if (min.Some? && storageId < StorageId(rules, min.value)) || (max.Some? && storageId > StorageId(rules, max.value)) {
          continue;
        }
        var idSet := GetAll(tx, storageId);
        if min.Some? {
          idSet := TailSet(idSet, min.value);
        }
        if max.Some? {
          idSet := HeadSet(idSet, max.value);
        }
        assert idSet == TypeIdSet(rules, min, max, tx, storageId);
        idSets := idSets + [idSet];
      }
      assert types[..|types|] == types;
    }
  }

  lemma TypeIdSetsStep(rules: IdRules, min: Option<ObjId>, max: Option<ObjId>, tx: Tx, types: seq<int>, t: nat)
    requires t < |types|
    ensures TypeIdSets(rules, min, max, tx, types[..t + 1])
            == TypeIdSets(rules, min, max, tx, types[..t])
               + (if TypeKept(rules, min, max, types[t]) then [TypeIdSet(rules, min, max, tx, types[t])] else [])
  {
    assert types[..t + 1][..t] == types[..t];
  }

  lemma IdSetsStep(rules: IdRules, min: Option<ObjId>, max: Option<ObjId>, tx: Tx, schemas: seq<seq<int>>, s: nat)
    requires s < |schemas|
    ensures IdSets(rules, min, max, tx, schemas[..s + 1])
            == IdSets(rules, min, max, tx, schemas[..s]) + TypeIdSets(rules, min, max, tx, schemas[s])
  {
    assert schemas[..s + 1][..s] == schemas[..s];
  }

  /** The completions, in terms of the gathered ID sets. */
  lemma CompletionsOfSets(rules: IdRules, min: Option<ObjId>, max: Option<ObjId>, tx: Tx, idSets: seq<seq<ObjId>>)
    requires idSets == IdSets(rules, min, max, tx, tx.schemas)
    ensures idSets == [] ==> Completions(rules, min, max, tx) == []
    ensures idSets != [] ==> Completions(rules, min, max, tx) == IdStrings(Limit(UnionAll(idSets), MaxCompleteObjects))
  {
  }

  lemma IdStringsAppend(ids: seq<ObjId>, id: ObjId)
    ensures IdStrings(ids + [id]) == IdStrings(ids) + [IdString(id)]
  {
  }

  // ---------------------------------------------------------------------------------------
  // Parsing

  /** `System.arraycopy(src, 0, dest, 0, src.length)`. */
  method ArrayCopy(src: seq<char>, dest: array<char>)
    requires |src| <= dest.Length
    modifies dest
    ensures dest[..|src|] == src && dest[|src|..] == old(dest[|src|..])
  {
    for i := 0 to |src|
      invariant dest[..i] == src[..i] && dest[i..] == old(dest[i..])
    {
      dest[i] := src[i];
    }
  }

  /** `Arrays.fill(a, from, a.length, c)`. */
  method Fill(a: array<char>, from: nat, c: char)
    requires from <= a.Length
    modifies a
    ensures a[..from] == old(a[..from]) && forall j :: from <= j < a.Length ==> a[j] == c
  {
    for i := from to a.Length
      invariant a[..from] == old(a[..from]) && forall j :: from <= j < i ==> a[j] == c
    {
      a[i] := c;
    }
  }

  /** What `parse` does, stated on values. */
  function ParseSpec(rules: IdRules, tx: Tx, input: string, complete: bool): ParseResult {
    var k := TokenLength(input, IdLength);
    var token := input[..k];
    var rest := input[k..];
    match ParseObjId(rules, token)
    case Some(id) => Parsed(id, rest)
    case None =>
      if rest != [] || !complete then ParseError(InvalidObjectId, [])
      else
        var minString := Pad(token, '0');
        var min := ParseObjId(rules, minString);
        if min.None? && minString[..2] != "00" then ParseError(InvalidObjectId, [])
        else
          var max := ParseObjId(rules, Pad(token, 'f'));
          ParseError(InvalidObjectId, Completions(rules, min, max, tx))
  }

  /**
   * `parse`: the input is what remains of the parse context; `tx` is the transaction the
   * parse session runs the completion finder in.
   */
  method Parse(rules: IdRules, tx: Tx, input: string, complete: bool) returns (r: ParseResult)
    ensures r == ParseSpec(rules, tx, input, complete)
  {
    // the longest run of up to 16 hex digits at the front of the input
    var k := TokenLength(input, IdLength);
    var param := input[..k];
    var rest := input[k..];

    // a complete, valid ID ends the parse at once
    var full := ParseObjId(rules, param);
    if full.Some? {
      return Parsed(full.value, rest);
    }
    if rest != [] || !complete {
      return ParseError(InvalidObjectId, []);
    }

    // pad the token to the lower bound, then to the upper bound
    var idChars := new char[IdLength];
    ArrayCopy(param, idChars);
    Fill(idChars, k, '0');
    var minString := idChars[..];
    assert minString == Pad(param, '0');
    var min := ParseObjId(rules, minString);
    if min.None? && minString[..2] != "00" {
      return ParseError(InvalidObjectId, []);
    }
    Fill(idChars, k, 'f');
    assert idChars[..] == Pad(param, 'f');
    var max := ParseObjId(rules, idChars[..]);

    // look up the objects between the two bounds
    var finder := new CompletionFinder(rules, min, max);
    finder.Run(tx);

    // the partial token is an error that carries the completions
    r := ParseError(InvalidObjectId, finder.completions);
  }

  // ---------------------------------------------------------------------------------------
  // What the completions are

  /** `x` is in one of the sets. */
  ghost predicate InSome(sets: seq<seq<ObjId>>, x: ObjId) {
    exists i :: 0 <= i < |sets| && x in sets[i]
  }

  /** `x` is an object of one of the kept `types`, within the bounds. */
  ghost predicate TypeCandidate(rules: IdRules, min: Option<ObjId>, max: Option<ObjId>, tx: Tx, types: seq<int>, x: ObjId) {
    exists t :: 0 <= t < |types| && TypeKept(rules, min, max, types[t]) && x in GetAll(tx, types[t]) && InRange(min, max, x)
  }

  /** `x` is an object, within the bounds, of a kept object type of one of the schemas. */
  ghost predicate Candidate(rules: IdRules, min: Option<ObjId>, max: Option<ObjId>, tx: Tx, schemas: seq<seq<int>>, x: ObjId) {
    exists s :: 0 <= s < |schemas| && TypeCandidate(rules, min, max, tx, schemas[s], x)
  }

  lemma AscendingCons(x: ObjId, s: seq<ObjId>)
    ensures Ascending([x] + s) <==> Ascending(s) && forall y :: y in s ==> x.value < y.value
  {
    var t := [x] + s;
    if Ascending(t) {
      forall i, j | 0 <= i < j < |s| ensures s[i].value < s[j].value {
        assert s[i] == t[i + 1] && s[j] == t[j + 1];
      }
      forall y | y in s ensures x.value < y.value {
        var j :| 0 <= j < |s| && s[j] == y;
        assert t[j + 1] == y && t[0] == x;
      }
    }
    if Ascending(s) && forall y :: y in s ==> x.value < y.value {
      forall i, j | 0 <= i < j < |t| ensures t[i].value < t[j].value {
        if i == 0 {
          assert t[j] == s[j - 1] && t[j] in s;
        } else {
          assert t[i] == s[i - 1] && t[j] == s[j - 1];
        }
      }
    }
  }

  /** Filtering keeps an ascending sequence ascending. */
  lemma {:induction false} FilterAscending(s: seq<ObjId>, keep: ObjId -> bool)
    ensures Ascending(s) ==> Ascending(Filter(s, keep))
  {
    if s != [] && Ascending(s) {
      assert s == [s[0]] + s[1..];
      AscendingCons(s[0], s[1..]);
      FilterAscending(s[1..], keep);
      if keep(s[0]) {
        AscendingCons(s[0], Filter(s[1..], keep));
      } else {
        assert Filter(s, keep) == Filter(s[1..], keep);
      }
    }
  }

  /** The merge holds exactly the IDs of both sequences. */
  /** The merge of two ascending ID sequences is ascending. */
  lemma {:induction false} MergeSpec(a: seq<ObjId>, b: seq<ObjId>)
    requires Ascending(a) && Ascending(b)
    ensures Ascending(Merge(a, b))
    decreases |a| + |b|
  {
    if a != [] && b != [] {
      assert a == [a[0]] + a[1..] && b == [b[0]] + b[1..];
      AscendingCons(a[0], a[1..]);
      AscendingCons(b[0], b[1..]);
      if a[0].value < b[0].value {
        MergeSpec(a[1..], b);
        AscendingCons(a[0], Merge(a[1..], b));
      } else if b[0].value < a[0].value {
        MergeSpec(a, b[1..]);
        AscendingCons(b[0], Merge(a, b[1..]));
      } else {
        MergeSpec(a[1..], b[1..]);
        AscendingCons(a[0], Merge(a[1..], b[1..]));
      }
    }
  }

  lemma InSomeAppend(a: seq<seq<ObjId>>, b: seq<seq<ObjId>>, x: ObjId)
    ensures InSome(a + b, x) <==> InSome(a, x) || InSome(b, x)
  {
    if InSome(a + b, x) {
      var i :| 0 <= i < |a + b| && x in (a + b)[i];
      if i >= |a| {
        assert (a + b)[i] == b[i - |a|];
      }
    }
    if InSome(a, x) {
      var i :| 0 <= i < |a| && x in a[i];
      assert (a + b)[i] == a[i];
    }
    if InSome(b, x) {
      var i :| 0 <= i < |b| && x in b[i];
      assert (a + b)[|a| + i] == b[i];
    }
  }

  /** An ID is in one of a nonempty list of sets exactly when it is in one of the earlier sets or in the last. */
  lemma InSomeLast(sets: seq<seq<ObjId>>)
    requires sets != []
    ensures forall x :: InSome(sets, x) <==> InSome(sets[..|sets| - 1], x) || x in sets[|sets| - 1]
  {
    var n := |sets|;
    var prefix := sets[..n - 1];
    assert sets == prefix + [sets[n - 1]];
    forall x ensures InSome(sets, x) <==> InSome(prefix, x) || x in sets[n - 1] {
      InSomeAppend(prefix, [sets[n - 1]], x);
      assert InSome([sets[n - 1]], x) <==> x in sets[n - 1] by {
        assert [sets[n - 1]][0] == sets[n - 1];
      }
    }
  }

  /** The union of ascending sets is ascending. */
  lemma {:induction false} UnionAllSpec(sets: seq<seq<ObjId>>)
    requires forall i :: 0 <= i < |sets| ==> Ascending(sets[i])
    ensures Ascending(UnionAll(sets))
  {
    if sets != [] {
      var n := |sets|;
      UnionAllSpec(sets[..n - 1]);
      MergeSpec(UnionAll(sets[..n - 1]), sets[n - 1]);
    }
  }

  lemma TypeIdSetSpec(rules: IdRules, min: Option<ObjId>, max: Option<ObjId>, tx: Tx, storageId: int)
    ensures forall x :: x in TypeIdSet(rules, min, max, tx, storageId) <==> x in GetAll(tx, storageId) && InRange(min, max, x)
    ensures TxValid(tx) ==> Ascending(TypeIdSet(rules, min, max, tx, storageId))
  {
  }

  /** One step of the gathering loop over types: the ID sets of a longer prefix of the types. */
  lemma TypeCandidateStep(rules: IdRules, min: Option<ObjId>, max: Option<ObjId>, tx: Tx, types: seq<int>, x: ObjId)
    requires types != []
    ensures TypeCandidate(rules, min, max, tx, types, x) <==>
              TypeCandidate(rules, min, max, tx, types[..|types| - 1], x) ||
              (TypeKept(rules, min, max, types[|types| - 1]) && x in GetAll(tx, types[|types| - 1]) && InRange(min, max, x))
  {
    var n := |types|;
    var prefix := types[..n - 1];
    if TypeCandidate(rules, min, max, tx, types, x) {
      var t :| 0 <= t < n && TypeKept(rules, min, max, types[t]) && x in GetAll(tx, types[t]) && InRange(min, max, x);
      if t < n - 1 {
        assert prefix[t] == types[t];
      }
    }
    if TypeCandidate(rules, min, max, tx, prefix, x) {
      var t :| 0 <= t < n - 1 && TypeKept(rules, min, max, prefix[t]) && x in GetAll(tx, prefix[t]) && InRange(min, max, x);
      assert types[t] == prefix[t];
    }
  }

  lemma {:induction false} TypeIdSetsMembers(rules: IdRules, min: Option<ObjId>, max: Option<ObjId>, tx: Tx, types: seq<int>, x: ObjId)
    ensures InSome(TypeIdSets(rules, min, max, tx, types), x) <==> TypeCandidate(rules, min, max, tx, types, x)
  {
    if types != [] {
      var n := |types|;
      var prefix := types[..n - 1];
      var last := types[n - 1];
      TypeIdSetsMembers(rules, min, max, tx, prefix, x);
      TypeIdSetSpec(rules, min, max, tx, last);
      TypeCandidateStep(rules, min, max, tx, types, x);
      var extra := if TypeKept(rules, min, max, last) then [TypeIdSet(rules, min, max, tx, last)] else [];
      InSomeAppend(TypeIdSets(rules, min, max, tx, prefix), extra, x);
      assert InSome(extra, x) <==> TypeKept(rules, min, max, last) && x in TypeIdSet(rules, min, max, tx, last) by {
        if TypeKept(rules, min, max, last) {
          assert extra[0] == TypeIdSet(rules, min, max, tx, last);
        }
      }
    }
  }

  lemma {:induction false} TypeIdSetsAscending(rules: IdRules, min: Option<ObjId>, max: Option<ObjId>, tx: Tx, types: seq<int>)
    requires TxValid(tx)
    ensures forall i :: 0 <= i < |TypeIdSets(rules, min, max, tx, types)| ==> Ascending(TypeIdSets(rules, min, max, tx, types)[i])
  {
    if types != [] {
      var n := |types|;
      var prefix := types[..n - 1];
      var last := types[n - 1];
      TypeIdSetsAscending(rules, min, max, tx, prefix);
      TypeIdSetSpec(rules, min, max, tx, last);
    }
  }

  lemma TypeIdSetsSpec(rules: IdRules, min: Option<ObjId>, max: Option<ObjId>, tx: Tx, types: seq<int>)
    ensures forall x :: InSome(TypeIdSets(rules, min, max, tx, types), x) <==> TypeCandidate(rules, min, max, tx, types, x)
    ensures TxValid(tx) ==> forall i :: 0 <= i < |TypeIdSets(rules, min, max, tx, types)| ==>
                              Ascending(TypeIdSets(rules, min, max, tx, types)[i])
  {
    forall x ensures InSome(TypeIdSets(rules, min, max, tx, types), x) <==> TypeCandidate(rules, min, max, tx, types, x) {
      TypeIdSetsMembers(rules, min, max, tx, types, x);
    }
    if TxValid(tx) {
      TypeIdSetsAscending(rules, min, max, tx, types);
    }
  }

  lemma {:induction false} IdSetsSpec(rules: IdRules, min: Option<ObjId>, max: Option<ObjId>, tx: Tx, schemas: seq<seq<int>>)
    ensures forall x :: InSome(IdSets(rules, min, max, tx, schemas), x) <==> Candidate(rules, min, max, tx, schemas, x)
    ensures TxValid(tx) ==> forall i :: 0 <= i < |IdSets(rules, min, max, tx, schemas)| ==>
                              Ascending(IdSets(rules, min, max, tx, schemas)[i])
  {
    if schemas != [] {
      var n := |schemas|;
      var prefix := schemas[..n - 1];
      var last := schemas[n - 1];
      IdSetsSpec(rules, min, max, tx, prefix);
      TypeIdSetsSpec(rules, min, max, tx, last);
      var a, b := IdSets(rules, min, max, tx, prefix), TypeIdSets(rules, min, max, tx, last);
      assert IdSets(rules, min, max, tx, schemas) == a + b;
      forall x ensures InSome(a + b, x) <==> Candidate(rules, min, max, tx, schemas, x) {
        InSomeAppend(a, b, x);
        if Candidate(rules, min, max, tx, schemas, x) {
          var s :| 0 <= s < n && TypeCandidate(rules, min, max, tx, schemas[s], x);
          if s < n - 1 {
            assert prefix[s] == schemas[s];
          }
        }
        if Candidate(rules, min, max, tx, prefix, x) {
          var s :| 0 <= s < n - 1 && TypeCandidate(rules, min, max, tx, prefix[s], x);
          assert schemas[s] == prefix[s];
        }
      }
      if TxValid(tx) {
        forall i | 0 <= i < |a + b| ensures Ascending((a + b)[i]) {
          if i >= |a| {
            assert (a + b)[i] == b[i - |a|];
          } else {
            assert (a + b)[i] == a[i];
          }
        }
      }
    }
  }

  /** The first `n` elements of an ascending sequence: ascending, taken from it, and missing an element only if `n` smaller ones are kept. */
  lemma LimitAscending(u: seq<ObjId>, n: nat)
    requires Ascending(u)
    ensures Ascending(Limit(u, n))
    ensures forall x :: x in Limit(u, n) ==> x in u
    ensures forall x :: x in u && x !in Limit(u, n) ==> |Limit(u, n)| == n && forall y :: y in Limit(u, n) ==> y.value < x.value
  {
    var ids := Limit(u, n);
    assert ids == u[..|ids|];
    assert forall k :: 0 <= k < |ids| ==> ids[k] == u[k];
    assert forall k :: 0 <= k < |ids| ==> u[k] in ids;
    forall x | x in u && x !in ids
      ensures |ids| == n && forall y :: y in ids ==> y.value < x.value
    {
      var j :| 0 <= j < |u| && u[j] == x;
      forall y | y in ids ensures y.value < x.value {
        var i :| 0 <= i < |ids| && ids[i] == y;
      }
    }
  }

  /**
   * The IDs offered are, in ascending order, the smallest (at most 100) of the objects of
   * the kept types that lie within the bounds: every offered ID is such an object, and
   * such an object is left out only when 100 smaller ones are offered.
   */
  lemma CompletionIdsSpec(rules: IdRules, min: Option<ObjId>, max: Option<ObjId>, tx: Tx)
    requires TxValid(tx)
    ensures |CompletionIds(rules, min, max, tx)| <= MaxCompleteObjects
    ensures Ascending(CompletionIds(rules, min, max, tx))
    ensures forall x :: x in CompletionIds(rules, min, max, tx) ==> Candidate(rules, min, max, tx, tx.schemas, x)
    ensures forall x :: Candidate(rules, min, max, tx, tx.schemas, x) && x !in CompletionIds(rules, min, max, tx) ==>
              |CompletionIds(rules, min, max, tx)| == MaxCompleteObjects &&
              forall y :: y in CompletionIds(rules, min, max, tx) ==> y.value < x.value
  {
    var sets := IdSets(rules, min, max, tx, tx.schemas);
    IdSetsSpec(rules, min, max, tx, tx.schemas);
    if sets != [] {
      UnionAllSpec(sets);
      LimitAscending(UnionAll(sets), MaxCompleteObjects);
    }
  }

  /** The completions are the string forms of those IDs, in the same order, and never more than 100. */
  lemma CompletionsSpec(rules: IdRules, min: Option<ObjId>, max: Option<ObjId>, tx: Tx)
    requires TxValid(tx)
    ensures |Completions(rules, min, max, tx)| <= MaxCompleteObjects
    ensures forall i :: 0 <= i < |Completions(rules, min, max, tx)| ==>
              exists x :: Candidate(rules, min, max, tx, tx.schemas, x) && Completions(rules, min, max, tx)[i] == IdString(x)
  {
    var ids := CompletionIds(rules, min, max, tx);
    CompletionIdsSpec(rules, min, max, tx);
    forall i | 0 <= i < |Completions(rules, min, max, tx)|
      ensures exists x :: Candidate(rules, min, max, tx, tx.schemas, x) && Completions(rules, min, max, tx)[i] == IdString(x)
    {
      assert ids[i] in ids;
    }
  }

  // ---------------------------------------------------------------------------------------
  // What parse does

  /**
   * The padded bounds: both have the token as prefix, the '0'-padded one is below the
   * 'f'-padded one character by character, and every 16-digit string with the token as
   * prefix has a value between theirs.
   */
  lemma PaddingEnclosesPrefixed(token: string, s: string)
    requires |token| <= IdLength && IsHex(token)
    requires |s| == IdLength && IsHex(s) && s[..|token|] == token
    ensures forall i :: 0 <= i < IdLength ==> Pad(token, '0')[i] <= Pad(token, 'f')[i]
    ensures IsHex(Pad(token, '0')) && IsHex(Pad(token, 'f'))
    ensures HexValue(Pad(token, '0')) <= HexValue(s) <= HexValue(Pad(token, 'f'))
  {
    var lo, hi, k := Pad(token, '0'), Pad(token, 'f'), |token|;
    assert forall i :: 0 <= i < k ==> lo[i] == token[i] == hi[i] == s[i] by {
      assert forall i :: 0 <= i < k ==> lo[..k][i] == lo[i] && hi[..k][i] == hi[i] && s[..k][i] == s[i];
    }
    HexValueMonotone(lo, s);
    HexValueMonotone(s, hi);
  }

  /** A full, valid object ID at the start of the input is returned, with the rest of the input left unparsed. */
  lemma ParseFullId(rules: IdRules, tx: Tx, input: string, complete: bool)
    requires ParseObjId(rules, input[..TokenLength(input, IdLength)]).Some?
    ensures TokenLength(input, IdLength) == IdLength
    ensures ParseSpec(rules, tx, input, complete).Parsed?
    ensures ParseSpec(rules, tx, input, complete).id.value == HexValue(input[..IdLength])
    ensures ParseSpec(rules, tx, input, complete).rest == input[IdLength..]
  {
  }

  /** A partial (or invalid) ID never yields an object ID: parse always ends with the "invalid object ID" error. */
  lemma ParsePartialNeverReturns(rules: IdRules, tx: Tx, input: string, complete: bool)
    requires ParseObjId(rules, input[..TokenLength(input, IdLength)]).None?
    ensures ParseSpec(rules, tx, input, complete).ParseError?
    ensures ParseSpec(rules, tx, input, complete).message == InvalidObjectId
  {
  }

  /** A partial ID followed by more input, or met when no completion is asked for, is an error without completions. */
  lemma ParsePartialNeedsEnd(rules: IdRules, tx: Tx, input: string, complete: bool)
    requires ParseObjId(rules, input[..TokenLength(input, IdLength)]).None?
    requires TokenLength(input, IdLength) < |input| || !complete
    ensures ParseSpec(rules, tx, input, complete) == ParseError(InvalidObjectId, [])
  {
  }

  /** Input that does not start with 16 hex digits and is not made of hex digits alone is refused outright. */
  lemma ParseRejectsNonHex(rules: IdRules, tx: Tx, input: string, complete: bool, k: nat)
    requires k < |input| && k < IdLength && IsHex(input[..k]) && !IsHexDigit(input[k])
    ensures ParseSpec(rules, tx, input, complete) == ParseError(InvalidObjectId, [])
  {
    var n := TokenLength(input, IdLength);
    assert forall i :: 0 <= i < k ==> input[..k][i] == input[i];
    assert forall i :: 0 <= i < n ==> input[..n][i] == input[i];
    assert n == k;
  }

  /**
   * A partial ID at the end of the input, with completion asked for: an invalid '0'-padded
   * bound is an error unless it starts with "00", in which case there is no lower bound;
   * an invalid 'f'-padded bound means there is no upper bound; the error then carries the
   * completions found between the bounds.
   */
  lemma ParsePartialCompletes(rules: IdRules, tx: Tx, input: string)
    requires ParseObjId(rules, input).None? && IsHex(input) && |input| <= IdLength
    ensures var min, max := ParseObjId(rules, Pad(input, '0')), ParseObjId(rules, Pad(input, 'f'));
            && (min.None? && Pad(input, '0')[..2] != "00" ==> ParseSpec(rules, tx, input, true) == ParseError(InvalidObjectId, []))
            && (min.Some? || Pad(input, '0')[..2] == "00" ==>
                  ParseSpec(rules, tx, input, true) == ParseError(InvalidObjectId, Completions(rules, min, max, tx)))
            && (min.Some? ==> min.value.value == HexValue(Pad(input, '0')))
            && (max.Some? ==> max.value.value == HexValue(Pad(input, 'f')))
            && (min.Some? && max.Some? ==> min.value.value <= max.value.value)
  {
    var k := TokenLength(input, IdLength);
    assert k == |input|;
    assert input[..k] == input;
    PaddingEnclosesPrefixed(input, Pad(input, 'f'));
  }
}

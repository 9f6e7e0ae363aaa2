/**
 From the resources added to a workflow project to the ConfigMaps generated for
 them. Resources are kept in an unordered map of paths; the manifest list must
 not depend on its iteration order, nor on the order of the calls.
 */
module ProjectManifest {
  import opened Common
  import opened Ordering

  /** A reader as its first read finds it. */
  datatype Reader = Contents(text: string) | Broken

  datatype Resource = Resource(name: string, contents: Reader)

  type RawResources = map<string, seq<Resource>>

  const DEFAULT_RESOURCE_PATH := "specs"

  // ------------------------------------------------------------- collecting

  function AddTo(rs: seq<Resource>, name: string, reader: Reader): seq<Resource> {
    if rs == [] then [Resource(name, reader)]
    else if rs[0].name == name then [Resource(name, reader)] + rs[1..]
    else [rs[0]] + AddTo(rs[1..], name, reader)
  }

  function At(raw: RawResources, path: string): seq<Resource> {
    if path in raw then raw[path] else []
  }

  /** One `AddResourceAt`; `AddResource` is one at the default path. */
  datatype Add = Add(name: string, path: string, reader: Reader)

  function AddRaw(raw: RawResources, a: Add): RawResources {
    raw[a.path := AddTo(At(raw, a.path), a.name, a.reader)]
  }

  /** What a fresh handler holds after some calls. */
  function Collected(calls: seq<Add>): RawResources {
    if calls == [] then map[] else AddRaw(Collected(calls[..|calls| - 1]), calls[|calls| - 1])
  }

  /** The content last given for a path and name. */
  function LastContent(calls: seq<Add>, path: string, name: string): Option<Reader> {
    if calls == [] then None
    else
      var last := calls[|calls| - 1];
      if last.path == path && last.name == name then Some(last.reader)
      else LastContent(calls[..|calls| - 1], path, name)
  }

  /** The list of one path as a map. */
  function ByName(rs: seq<Resource>): map<string, Reader> {
    if rs == [] then map[] else ByName(rs[1..])[rs[0].name := rs[0].contents]
  }

  ghost predicate DistinctNames(rs: seq<Resource>) {
    forall i, j :: 0 <= i < j < |rs| ==> rs[i].name != rs[j].name
  }

  lemma {:induction false} ByNameLookup(rs: seq<Resource>)
    requires DistinctNames(rs)
    ensures forall i :: 0 <= i < |rs| ==> rs[i].name in ByName(rs) && ByName(rs)[rs[i].name] == rs[i].contents
    ensures forall n :: n in ByName(rs) ==> exists i :: 0 <= i < |rs| && rs[i].name == n
  {
    if rs == [] {
    } else {
      ByNameLookup(rs[1..]);
    }
  }

  /** Adding keeps names distinct, replaces the content of a known name in place and appends a new one. */
  lemma {:induction false} AddToOutcome(rs: seq<Resource>, name: string, reader: Reader)
    requires DistinctNames(rs)
    ensures
      var after := AddTo(rs, name, reader);
      && |rs| <= |after| <= |rs| + 1
      && DistinctNames(after)
      && (forall i :: 0 <= i < |rs| ==> after[i] == if rs[i].name == name then Resource(name, reader) else rs[i])
      && (|after| == |rs| + 1 <==> forall i :: 0 <= i < |rs| ==> rs[i].name != name)
      && (|after| == |rs| + 1 ==> after[|rs|] == Resource(name, reader))
  {
    if rs == [] || rs[0].name == name {
    } else {
      AddToOutcome(rs[1..], name, reader);
    }
  }

  lemma {:induction false} AddToByName(rs: seq<Resource>, name: string, reader: Reader)
    ensures ByName(AddTo(rs, name, reader)) == ByName(rs)[name := reader]
  {
    if rs == [] || rs[0].name == name {
    } else {
      AddToByName(rs[1..], name, reader);
    }
  }

  lemma {:induction false} AddToFound(rs: seq<Resource>, i: nat, name: string, reader: Reader)
    requires i < |rs| && rs[i].name == name && forall k :: 0 <= k < i ==> rs[k].name != name
    ensures AddTo(rs, name, reader) == rs[i := Resource(name, reader)]
    decreases i
  {
    if i == 0 {
    } else {
      AddToFound(rs[1..], i - 1, name, reader);
      assert rs[i := Resource(name, reader)] == [rs[0]] + rs[1..][i - 1 := Resource(name, reader)];
    }
  }

  lemma {:induction false} AddToMissing(rs: seq<Resource>, name: string, reader: Reader)
    requires forall k :: 0 <= k < |rs| ==> rs[k].name != name
    ensures AddTo(rs, name, reader) == rs + [Resource(name, reader)]
  {
    if rs == [] {
    } else {
      AddToMissing(rs[1..], name, reader);
    }
  }

  /** A handler holds, per path and name, exactly the last content given. */
  lemma {:induction false} CollectedIsLastContent(calls: seq<Add>, path: string, name: string)
    ensures DistinctNames(At(Collected(calls), path))
    ensures
      var held := ByName(At(Collected(calls), path));
      LastContent(calls, path, name) == if name in held then Some(held[name]) else None
    ensures path in Collected(calls) ==> Collected(calls)[path] != []
  {
    if calls == [] {
    } else {
      var front, last := calls[..|calls| - 1], calls[|calls| - 1];
      CollectedIsLastContent(front, path, name);
      if last.path == path {
        AddToOutcome(At(Collected(front), path), last.name, last.reader);
        AddToByName(At(Collected(front), path), last.name, last.reader);
      }
    }
  }

  /** What was given last for its path and name is held there. */
  lemma LastGivenIsHeld(calls: seq<Add>, k: nat)
    requires k < |calls|
    requires forall j :: k < j < |calls| ==> calls[j].path != calls[k].path || calls[j].name != calls[k].name
    ensures Resource(calls[k].name, calls[k].reader) in At(Collected(calls), calls[k].path)
  {
    CollectedIsLastContent(calls, calls[k].path, calls[k].name);
    LastContentIs(calls, k);
    ByNameLookup(At(Collected(calls), calls[k].path));
  }

  lemma {:induction false} LastContentIs(calls: seq<Add>, k: nat)
    requires k < |calls|
    requires forall j :: k < j < |calls| ==> calls[j].path != calls[k].path || calls[j].name != calls[k].name
    ensures LastContent(calls, calls[k].path, calls[k].name) == Some(calls[k].reader)
  {
    if k < |calls| - 1 { LastContentIs(calls[..|calls| - 1], k); }
  }

  /** Nothing else is held: every resource was given, and nothing later for its path and name. */
  lemma HeldWasGivenLast(calls: seq<Add>, path: string, i: nat)
    requires i < |At(Collected(calls), path)|
    ensures
      var r := At(Collected(calls), path)[i];
      exists k :: 0 <= k < |calls| && calls[k] == Add(r.name, path, r.contents) &&
                  forall j :: k < j < |calls| ==> calls[j].path != path || calls[j].name != r.name
  {
    var name := At(Collected(calls), path)[i].name;
    CollectedIsLastContent(calls, path, name);
    ByNameLookup(At(Collected(calls), path));
    GivenLast(calls, path, name);
  }

  lemma {:induction false} GivenLast(calls: seq<Add>, path: string, name: string)
    requires LastContent(calls, path, name).Some?
    ensures exists k :: 0 <= k < |calls| && calls[k] == Add(name, path, LastContent(calls, path, name).value) &&
                        forall j :: k < j < |calls| ==> calls[j].path != path || calls[j].name != name
  {
    var front, last := calls[..|calls| - 1], calls[|calls| - 1];
    if last.path == path && last.name == name {
      assert calls[|calls| - 1] == Add(name, path, last.reader);
    } else {
      GivenLast(front, path, name);
      var k :| 0 <= k < |front| && front[k] == Add(name, path, LastContent(front, path, name).value) &&
               forall j :: k < j < |front| ==> front[j].path != path || front[j].name != name;
      assert calls[k] == front[k];
    }
  }

  // -------------------------------------------------------------- naming

  function Digit(d: nat): char
    requires d < 10
  {
    '0' + d as char
  }

  function Decimal(n: nat): string {
    if n < 10 then [Digit(n)] else Decimal(n / 10) + [Digit(n % 10)]
  }

  /** `%02d`. */
  function Padded(n: nat): string {
    if n < 10 then "0" + Decimal(n) else Decimal(n)
  }

  /** The number a string of digits denotes. */
  function Denoted(s: string): int {
    if s == [] then 0 else 10 * Denoted(s[..|s| - 1]) + (s[|s| - 1] as int - '0' as int)
  }

  lemma {:induction false} DecimalDenotes(n: nat)
    ensures Denoted(Decimal(n)) == n
    ensures forall i :: 0 <= i < |Decimal(n)| ==> '0' <= Decimal(n)[i] <= '9'
  {
    if n < 10 {
      assert Decimal(n)[..0] == "";
    } else {
      DecimalDenotes(n / 10);
      assert Decimal(n)[..|Decimal(n)| - 1] == Decimal(n / 10);
    }
  }

  lemma {:induction false} DecimalLeads(n: nat)
    ensures n > 0 ==> Decimal(n)[0] != '0'
    ensures |Decimal(n)| == 1 <==> n < 10
    ensures |Decimal(n)| == 2 <==> 10 <= n < 100
  {
    if n < 10 {
    } else {
      DecimalLeads(n / 10);
    }
  }

  /** Two digits up to 99, and the plain decimal, without leading zeros, from 100 on. */
  lemma PaddedDenotes(n: nat)
    ensures Denoted(Padded(n)) == n
    ensures forall i :: 0 <= i < |Padded(n)| ==> '0' <= Padded(n)[i] <= '9'
    ensures n < 100 ==> Padded(n) == ['0' + (n / 10) as char, '0' + (n % 10) as char]
    ensures n >= 100 ==> |Padded(n)| > 2 && Padded(n)[0] != '0'
  {
    DecimalDenotes(n);
    DecimalLeads(n);
    if 10 <= n < 100 { assert Decimal(n / 10) == [Digit(n / 10)]; }
    if n < 10 {
      assert Padded(n)[..1] == "0" && "0"[..0] == "";
      assert Denoted("0") == 0;
    }
  }

  function ConfigMapName(count: nat, workflow: string, path: string): string {
    Padded(count) + "-" + workflow + "-resources-" + path
  }

  /** The counter can be read back from the name, so different counters give different names. */
  lemma ConfigMapNameInjective(i: nat, j: nat, workflow: string, p: string, q: string)
    requires ConfigMapName(i, workflow, p) == ConfigMapName(j, workflow, q)
    ensures i == j
  {
    var s, t := ConfigMapName(i, workflow, p), ConfigMapName(j, workflow, q);
    var a, b := Padded(i), Padded(j);
    PaddedDenotes(i);
    PaddedDenotes(j);
    assert s[|a|] == '-' && t[|b|] == '-';
    assert forall k :: 0 <= k < |a| ==> s[k] == a[k];
    assert forall k :: 0 <= k < |b| ==> t[k] == b[k];
    assert |a| == |b|;
    assert s[..|a|] == a && t[..|b|] == b;
  }

  /** A name ends with the path, and for one counter and path tells workflows apart. */
  lemma ConfigMapNameParts(count: nat, workflow: string, other: string, path: string)
    ensures
      var name := ConfigMapName(count, workflow, path);
      var tail := "-" + workflow + "-resources-" + path;
      && |name| == |Padded(count)| + |tail|
      && name[..|Padded(count)|] == Padded(count) && name[|Padded(count)|..] == tail
    ensures ConfigMapName(count, workflow, path) == ConfigMapName(count, other, path) ==> workflow == other
  {
    NameTail(Padded(count), workflow, path);
    NameTail(Padded(count), other, path);
  }

  lemma NameTail(number: string, workflow: string, path: string)
    ensures
      var name := number + "-" + workflow + "-resources-" + path;
      var tail := "-" + workflow + "-resources-" + path;
      && |name| == |number| + |tail| == |number| + |workflow| + |path| + 12
      && name[..|number|] == number && name[|number|..] == tail
      && name[|number| + 1..|number| + 1 + |workflow|] == workflow
  {
    var name := number + "-" + workflow + "-resources-" + path;
    assert name == number + ("-" + workflow + "-resources-" + path);
  }

  // ------------------------------------------------------------- generating

  datatype ConfigMap = ConfigMap(namespace: string, name: string, data: map<string, string>)

  datatype WorkflowResource = WorkflowResource(configMap: string, workflowPath: string)

  /** The part of the project that resources fill. */
  datatype Manifests = Manifests(configMaps: seq<ConfigMap>, references: seq<WorkflowResource>)

  datatype Error = ReadFailed(name: string) | EmptyResource(name: string)

  datatype Data = Data(entries: map<string, string>, error: Option<Error>)

  function ReadInto(rs: seq<Resource>, entries: map<string, string>): Data
    decreases |rs|
  {
    if rs == [] then Data(entries, None)
    else match rs[0].contents
      case Broken => Data(entries, Some(ReadFailed(rs[0].name)))
      case Contents("") => Data(entries, Some(EmptyResource(rs[0].name)))
      case Contents(text) => ReadInto(rs[1..], entries[rs[0].name := text])
  }

  function Append(m: Manifests, namespace: string, workflow: string, path: string, count: nat,
                  entries: map<string, string>): Manifests
  {
    var name := ConfigMapName(count, workflow, path);
    Manifests(m.configMaps + [ConfigMap(namespace, name, entries)], m.references + [WorkflowResource(name, path)])
  }

  /** The loop over the sorted paths, from the one at `i` on. */
  function Generate(raw: RawResources, paths: seq<string>, i: nat, namespace: string, workflow: string, m: Manifests)
    : (Manifests, Option<Error>)
    requires i <= |paths|
    decreases |paths| - i
  {
    if i == |paths| then (m, None)
    else
      var read := ReadInto(At(raw, paths[i]), map[]);
      if read.error.Some? then (m, read.error)
      else
        var next := Append(m, namespace, workflow, paths[i], i + 1, read.entries);
        Generate(raw, paths, i + 1, namespace, workflow, next)
  }

  ghost predicate SortedPaths(paths: seq<string>, raw: RawResources) {
    && (forall i, j :: 0 <= i < j < |paths| ==> Less(paths[i], paths[j]))
    && forall p :: p in paths <==> p in raw
  }

  /** The paths have one sorted order, whatever order the map was walked in. */
  lemma {:induction false} SortedPathsUnique(a: seq<string>, b: seq<string>)
    requires forall i, j :: 0 <= i < j < |a| ==> Less(a[i], a[j])
    requires forall i, j :: 0 <= i < j < |b| ==> Less(b[i], b[j])
    requires forall p :: p in a <==> p in b
    ensures a == b
  {
    LessIsStrictOrder();
    assert b != [] ==> b[0] in b;
    if a == [] {
    } else {
      assert a[0] in b;
      var i :| 0 <= i < |b| && b[i] == a[0];
      assert b[0] in a;
      var j :| 0 <= j < |a| && a[j] == b[0];
      assert a[0] == b[0];
      forall p ensures p in a[1..] <==> p in b[1..] {
        assert p in a <==> p == a[0] || p in a[1..];
        assert p in b <==> p == b[0] || p in b[1..];
        assert a[0] !in a[1..] && b[0] !in b[1..];
      }
      SortedPathsUnique(a[1..], b[1..]);
      assert a == [a[0]] + a[1..] && b == [b[0]] + b[1..];
    }
  }

  predicate Good(r: Reader) { r.Contents? && r.text != "" }

  ghost predicate AllGood(rs: seq<Resource>) {
    forall i :: 0 <= i < |rs| ==> Good(rs[i].contents)
  }

  function Texts(m: map<string, Reader>): map<string, string> {
    map n | n in m && m[n].Contents? :: m[n].text
  }

  /** Reading succeeds exactly on non-empty readable resources. */
  lemma {:induction false} ReadSucceedsIff(rs: seq<Resource>, entries: map<string, string>)
    ensures ReadInto(rs, entries).error.None? <==> AllGood(rs)
    decreases |rs|
  {
    if rs == [] || !Good(rs[0].contents) {
    } else {
      ReadSucceedsIff(rs[1..], entries[rs[0].name := rs[0].contents.text]);
    }
  }

  lemma {:induction false} ReadEntries(rs: seq<Resource>, entries: map<string, string>)
    requires DistinctNames(rs) && AllGood(rs)
    ensures
      var read := ReadInto(rs, entries).entries;
      && (forall n :: n in read <==> n in entries || exists i :: 0 <= i < |rs| && rs[i].name == n)
      && (forall i :: 0 <= i < |rs| ==> rs[i].name in read && read[rs[i].name] == rs[i].contents.text)
      && (forall n :: n in entries && (forall i :: 0 <= i < |rs| ==> rs[i].name != n) ==>
            n in read && read[n] == entries[n])
    decreases |rs|
  {
    if rs == [] {
    } else {
      var more := entries[rs[0].name := rs[0].contents.text];
      var rest := rs[1..];
      ReadEntries(rest, more);
      var read := ReadInto(rs, entries).entries;
      assert read == ReadInto(rest, more).entries;
      assert forall i :: 1 <= i < |rs| ==> rs[i] == rest[i - 1];
      assert forall i :: 0 <= i < |rest| ==> rest[i].name != rs[0].name;
      assert read[rs[0].name] == rs[0].contents.text;
    }
  }

  /** The data of a ConfigMap depends only on which content each name has. */
  lemma ReadTexts(rs: seq<Resource>)
    requires DistinctNames(rs) && AllGood(rs)
    ensures ReadInto(rs, map[]).entries == Texts(ByName(rs))
  {
    ByNameLookup(rs);
    ReadEntries(rs, map[]);
    var read := ReadInto(rs, map[]).entries;
    forall n ensures n in read <==> n in Texts(ByName(rs)) {
      if n in ByName(rs) { var i :| 0 <= i < |rs| && rs[i].name == n; }
    }
    forall n | n in read ensures read[n] == Texts(ByName(rs))[n] {
      var i :| 0 <= i < |rs| && rs[i].name == n;
    }
  }

  /** The `k`-th ConfigMap and reference are those of the `k`-th path. */
  ghost predicate Row(raw: RawResources, paths: seq<string>, namespace: string, workflow: string, m: Manifests, k: nat)
    requires k < |paths|
  {
    var name := ConfigMapName(k + 1, workflow, paths[k]);
    && k < |m.configMaps| && k < |m.references|
    && m.configMaps[k] == ConfigMap(namespace, name, Texts(ByName(At(raw, paths[k]))))
    && m.references[k] == WorkflowResource(name, paths[k])
  }

  lemma RowRefers(raw: RawResources, paths: seq<string>, namespace: string, workflow: string, m: Manifests, k: nat)
    requires k < |paths| && Row(raw, paths, namespace, workflow, m, k)
    ensures k < |m.configMaps| && k < |m.references|
    ensures m.references[k] == WorkflowResource(m.configMaps[k].name, paths[k])
    ensures m.configMaps[k].name == ConfigMapName(k + 1, workflow, paths[k])
    ensures m.configMaps[k].namespace == namespace
  {
  }

  lemma RowsDiffer(raw: RawResources, paths: seq<string>, namespace: string, workflow: string, m: Manifests,
                   i: nat, j: nat)
    requires i < j < |paths|
    requires Row(raw, paths, namespace, workflow, m, i) && Row(raw, paths, namespace, workflow, m, j)
    ensures m.configMaps[i].name != m.configMaps[j].name
  {
    if m.configMaps[i].name == m.configMaps[j].name {
      ConfigMapNameInjective(i + 1, j + 1, workflow, paths[i], paths[j]);
    }
  }

  lemma RowsAgree(raw: RawResources, raw': RawResources, paths: seq<string>, namespace: string, workflow: string,
                  m: Manifests, m': Manifests, k: nat)
    requires k < |paths| && ByName(At(raw, paths[k])) == ByName(At(raw', paths[k]))
    requires Row(raw, paths, namespace, workflow, m, k) && Row(raw', paths, namespace, workflow, m', k)
    ensures m.configMaps[k] == m'.configMaps[k] && m.references[k] == m'.references[k]
  {
  }

  /** What is generated for the paths from `i` on. */
  lemma {:induction false} GenerateOutcome(raw: RawResources, paths: seq<string>, i: nat, namespace: string,
                                           workflow: string, m: Manifests)
    requires i <= |paths| && |m.configMaps| == |m.references| == i
    requires forall k :: i <= k < |paths| ==> DistinctNames(At(raw, paths[k])) && AllGood(At(raw, paths[k]))
    ensures
      var after := Generate(raw, paths, i, namespace, workflow, m);
      && after.1 == None
      && |after.0.configMaps| == |after.0.references| == |paths|
      && m.configMaps <= after.0.configMaps && m.references <= after.0.references
      && forall k :: i <= k < |paths| ==> Row(raw, paths, namespace, workflow, after.0, k)
    decreases |paths| - i
  {
    if i == |paths| {
    } else {
      ReadSucceedsIff(At(raw, paths[i]), map[]);
      ReadTexts(At(raw, paths[i]));
      var next := Append(m, namespace, workflow, paths[i], i + 1, ReadInto(At(raw, paths[i]), map[]).entries);
      GenerateOutcome(raw, paths, i + 1, namespace, workflow, next);
      var after := Generate(raw, paths, i + 1, namespace, workflow, next).0;
      assert Row(raw, paths, namespace, workflow, next, i);
      assert after.configMaps[i] == next.configMaps[i] && after.references[i] == next.references[i];
    }
  }

  /** Generation fails exactly when some resource is empty or unreadable. */
  lemma {:induction false} GenerateSucceedsIff(raw: RawResources, paths: seq<string>, i: nat, namespace: string,
                                               workflow: string, m: Manifests)
    requires i <= |paths|
    ensures Generate(raw, paths, i, namespace, workflow, m).1.None? <==>
            forall k :: i <= k < |paths| ==> AllGood(At(raw, paths[k]))
    decreases |paths| - i
  {
    if i == |paths| {
    } else {
      ReadSucceedsIff(At(raw, paths[i]), map[]);
      var read := ReadInto(At(raw, paths[i]), map[]);
      if read.error.None? {
        GenerateSucceedsIff(raw, paths, i + 1, namespace, workflow,
                            Append(m, namespace, workflow, paths[i], i + 1, read.entries));
      }
    }
  }

  lemma AllGoodTail(rs: seq<Resource>, n: nat)
    requires 0 < n <= |rs| && AllGood(rs[..n])
    ensures Good(rs[0].contents) && AllGood(rs[1..][..n - 1])
  {
    assert rs[..n][0] == rs[0];
    var rest := rs[1..][..n - 1];
    forall i | 0 <= i < |rest| ensures Good(rest[i].contents) { assert rs[..n][i + 1] == rest[i]; }
  }

  /** Reading fails with the first resource that is empty or unreadable. */
  lemma {:induction false} ReadError(rs: seq<Resource>, entries: map<string, string>, n: nat)
    requires n < |rs| && AllGood(rs[..n]) && !Good(rs[n].contents)
    ensures ReadInto(rs, entries).error ==
            Some(if rs[n].contents == Contents("") then EmptyResource(rs[n].name) else ReadFailed(rs[n].name))
    decreases n
  {
    if n == 0 {
    } else {
      AllGoodTail(rs, n);
      ReadError(rs[1..], entries[rs[0].name := rs[0].contents.text], n - 1);
    }
  }

  /** Generation stops at the first such path, with its error, and leaves what the paths before it gave. */
  lemma {:induction false} GenerateError(raw: RawResources, paths: seq<string>, i: nat, namespace: string,
                                         workflow: string, m: Manifests, k: nat, n: nat)
    requires i <= k < |paths| && forall j :: i <= j < k ==> AllGood(At(raw, paths[j]))
    requires n < |At(raw, paths[k])| && AllGood(At(raw, paths[k])[..n]) && !Good(At(raw, paths[k])[n].contents)
    ensures
      var after := Generate(raw, paths, i, namespace, workflow, m);
      var bad := At(raw, paths[k])[n];
      && after.1 == Some(if bad.contents == Contents("") then EmptyResource(bad.name) else ReadFailed(bad.name))
      && m.configMaps <= after.0.configMaps && m.references <= after.0.references
      && |after.0.configMaps| == |m.configMaps| + (k - i) && |after.0.references| == |m.references| + (k - i)
    decreases |paths| - i
  {
    if i == k {
      ReadError(At(raw, paths[k]), map[], n);
    } else {
      ReadSucceedsIff(At(raw, paths[i]), map[]);
      var next := Append(m, namespace, workflow, paths[i], i + 1, ReadInto(At(raw, paths[i]), map[]).entries);
      GenerateError(raw, paths, i + 1, namespace, workflow, next, k, n);
    }
  }

  const NO_MANIFESTS := Manifests([], [])

  ghost predicate SameLastContents(calls: seq<Add>, calls': seq<Add>) {
    forall path, name :: LastContent(calls, path, name) == LastContent(calls', path, name)
  }

  ghost predicate LastContentsGood(calls: seq<Add>) {
    forall path, name :: LastContent(calls, path, name).Some? ==>
      LastContent(calls, path, name).value.Contents? && LastContent(calls, path, name).value.text != ""
  }

  lemma CollectedGood(calls: seq<Add>, path: string)
    requires LastContentsGood(calls)
    ensures AllGood(At(Collected(calls), path)) && DistinctNames(At(Collected(calls), path))
  {
    var rs := At(Collected(calls), path);
    CollectedIsLastContent(calls, path, "");
    ByNameLookup(rs);
    forall i | 0 <= i < |rs| ensures Good(rs[i].contents) {
      CollectedIsLastContent(calls, path, rs[i].name);
      assert LastContent(calls, path, rs[i].name) == Some(rs[i].contents);
    }
  }

  lemma SameContentsSamePaths(calls: seq<Add>, calls': seq<Add>, path: string)
    requires SameLastContents(calls, calls') && path in Collected(calls)
    ensures path in Collected(calls')
  {
    var rs := At(Collected(calls), path);
    CollectedIsLastContent(calls, path, "");
    CollectedIsLastContent(calls, path, rs[0].name);
    ByNameLookup(rs);
    CollectedIsLastContent(calls', path, rs[0].name);
    assert LastContent(calls', path, rs[0].name).Some?;
  }

  lemma SameContentsSameTable(calls: seq<Add>, calls': seq<Add>, path: string)
    requires SameLastContents(calls, calls')
    ensures ByName(At(Collected(calls), path)) == ByName(At(Collected(calls'), path))
  {
    var a, b := ByName(At(Collected(calls), path)), ByName(At(Collected(calls'), path));
    forall n ensures (n in a <==> n in b) && (n in a ==> a[n] == b[n]) {
      CollectedIsLastContent(calls, path, n);
      CollectedIsLastContent(calls', path, n);
      assert LastContent(calls, path, n) == LastContent(calls', path, n);
    }
  }

  /** What is generated from good contents. */
  lemma Generated(calls: seq<Add>, paths: seq<string>, namespace: string, workflow: string) returns (m: Manifests)
    requires LastContentsGood(calls) && SortedPaths(paths, Collected(calls))
    ensures Generate(Collected(calls), paths, 0, namespace, workflow, NO_MANIFESTS) == (m, None)
    ensures |m.configMaps| == |m.references| == |paths|
    ensures forall k :: 0 <= k < |paths| ==> Row(Collected(calls), paths, namespace, workflow, m, k)
  {
    forall p ensures AllGood(At(Collected(calls), p)) && DistinctNames(At(Collected(calls), p)) {
      CollectedGood(calls, p);
    }
    GenerateOutcome(Collected(calls), paths, 0, namespace, workflow, NO_MANIFESTS);
    m := Generate(Collected(calls), paths, 0, namespace, workflow, NO_MANIFESTS).0;
  }

  /** Main theorem: the same last contents give the same manifests, in any call order and any iteration order. */
  lemma ManifestsDeterministic(calls: seq<Add>, calls': seq<Add>, paths: seq<string>, paths': seq<string>,
                               namespace: string, workflow: string)
    requires SameLastContents(calls, calls') && LastContentsGood(calls)
    requires SortedPaths(paths, Collected(calls)) && SortedPaths(paths', Collected(calls'))
    ensures Generate(Collected(calls), paths, 0, namespace, workflow, NO_MANIFESTS) ==
            Generate(Collected(calls'), paths', 0, namespace, workflow, NO_MANIFESTS)
    ensures Generate(Collected(calls), paths, 0, namespace, workflow, NO_MANIFESTS).1 == None
  {
    forall p ensures p in paths <==> p in paths' {
      if p in paths { SameContentsSamePaths(calls, calls', p); }
      if p in paths' { SameContentsSamePaths(calls', calls, p); }
    }
    SortedPathsUnique(paths, paths');
    assert LastContentsGood(calls');
    var a := Generated(calls, paths, namespace, workflow);
    var b := Generated(calls', paths, namespace, workflow);
    forall k | 0 <= k < |paths| ensures a.configMaps[k] == b.configMaps[k] && a.references[k] == b.references[k] {
      SameContentsSameTable(calls, calls', paths[k]);
      RowsAgree(Collected(calls), Collected(calls'), paths, namespace, workflow, a, b, k);
    }
    assert a.configMaps == b.configMaps && a.references == b.references;
  }

  /** Generation succeeds exactly when every last content is readable and not empty. */
  lemma ManifestsSucceedIff(calls: seq<Add>, paths: seq<string>, namespace: string, workflow: string)
    requires SortedPaths(paths, Collected(calls))
    ensures Generate(Collected(calls), paths, 0, namespace, workflow, NO_MANIFESTS).1.None? <==> LastContentsGood(calls)
  {
    var raw := Collected(calls);
    GenerateSucceedsIff(raw, paths, 0, namespace, workflow, NO_MANIFESTS);
    if LastContentsGood(calls) {
      forall k | 0 <= k < |paths| ensures AllGood(At(raw, paths[k])) { CollectedGood(calls, paths[k]); }
    }
    if forall k :: 0 <= k < |paths| ==> AllGood(At(raw, paths[k])) {
      forall path, name | LastContent(calls, path, name).Some?
        ensures Good(LastContent(calls, path, name).value) {
        CollectedIsLastContent(calls, path, name);
        ByNameLookup(At(raw, path));
        assert path in paths;
      }
    }
  }

  /** One ConfigMap per path, in path order, with pairwise distinct names, each referenced with its own path. */
  lemma ManifestShape(calls: seq<Add>, paths: seq<string>, namespace: string, workflow: string)
    requires LastContentsGood(calls) && SortedPaths(paths, Collected(calls))
    ensures
      var m := Generate(Collected(calls), paths, 0, namespace, workflow, NO_MANIFESTS).0;
      && |m.configMaps| == |m.references| == |paths|
      && (forall i, j :: 0 <= i < j < |paths| ==> m.configMaps[i].name != m.configMaps[j].name)
      && (forall i :: 0 <= i < |paths| ==>
            && m.references[i] == WorkflowResource(m.configMaps[i].name, paths[i])
            && m.configMaps[i].name == ConfigMapName(i + 1, workflow, paths[i])
            && m.configMaps[i].namespace == namespace)
  {
    var m := Generated(calls, paths, namespace, workflow);
    var raw := Collected(calls);
    forall i | 0 <= i < |paths|
      ensures m.references[i] == WorkflowResource(m.configMaps[i].name, paths[i])
      ensures m.configMaps[i].name == ConfigMapName(i + 1, workflow, paths[i])
      ensures m.configMaps[i].namespace == namespace {
      RowRefers(raw, paths, namespace, workflow, m, i);
    }
    forall i, j | 0 <= i < j < |paths| ensures m.configMaps[i].name != m.configMaps[j].name {
      RowsDiffer(raw, paths, namespace, workflow, m, i, j);
    }
  }

  /** The data of the i-th ConfigMap is exactly the last content given for each name at the i-th path. */
  lemma ManifestData(calls: seq<Add>, paths: seq<string>, namespace: string, workflow: string, i: nat, n: string)
    requires LastContentsGood(calls) && SortedPaths(paths, Collected(calls)) && i < |paths|
    ensures
      var m := Generate(Collected(calls), paths, 0, namespace, workflow, NO_MANIFESTS).0;
      && i < |m.configMaps|
      && LastContent(calls, paths[i], n) ==
         if n in m.configMaps[i].data then Some(Contents(m.configMaps[i].data[n])) else None
  {
    var m := Generated(calls, paths, namespace, workflow);
    assert Row(Collected(calls), paths, namespace, workflow, m, i);
    CollectedIsLastContent(calls, paths[i], n);
    var held := ByName(At(Collected(calls), paths[i]));
    if n in held { assert Good(LastContent(calls, paths[i], n).value); }
  }

  // ------------------------------------------------------------- imperative

  class WorkflowProjectHandler {
    var name: string
    var namespace: string
    var rawResources: RawResources
    var manifests: Manifests
    var parsed: bool

    constructor (namespace: string)
      ensures this.namespace == namespace && name == "" && rawResources == Collected([])
      ensures manifests == NO_MANIFESTS && !parsed
    {
      this.namespace, name := namespace, "";
      rawResources, manifests, parsed := map[], NO_MANIFESTS, false;
    }

    method AddResource(name: string, reader: Reader)
      modifies this`rawResources, this`parsed
      ensures rawResources == AddRaw(old(rawResources), Add(name, "specs", reader))
      ensures parsed == (old(parsed) && exists r :: r in At(old(rawResources), "specs") && r.name == name)
    {
      AddResourceAt(name, DEFAULT_RESOURCE_PATH, reader);
    }

    /** Replacing a known resource leaves `parsed` as it was. */
    method AddResourceAt(name: string, path: string, reader: Reader)
      modifies this`rawResources, this`parsed
      ensures rawResources == AddRaw(old(rawResources), Add(name, path, reader))
      ensures parsed == (old(parsed) && exists r :: r in At(old(rawResources), path) && r.name == name)
    {
      var rs := At(rawResources, path);
      for i := 0 to |rs|
        invariant forall k :: 0 <= k < i ==> rs[k].name != name
      {
        if rs[i].name == name {
          AddToFound(rs, i, name, reader);
          rawResources := rawResources[path := rs[i := Resource(name, reader)]];
          return;
        }
      }
      AddToMissing(rs, name, reader);
      rawResources := rawResources[path := rs + [Resource(name, reader)]];
      parsed := false;
    }

    /** Walks the map in any order, sorts the paths and appends one ConfigMap and one reference per path. */
    method ParseRawResources() returns (error: Option<Error>, ghost paths: seq<string>)
      requires |manifests.configMaps| == |manifests.references| == 0
      modifies this`manifests
      ensures SortedPaths(paths, rawResources)
      ensures (manifests, error) == Generate(rawResources, paths, 0, namespace, name, old(manifests))
    {
      if |rawResources| == 0 { return None, []; }
      var resourceCount := 1;
      var ps := SortPaths(rawResources);
      paths := ps;
      for i := 0 to |ps|
        invariant resourceCount == i + 1
        invariant Generate(rawResources, ps, i, namespace, name, manifests) ==
                  Generate(rawResources, ps, 0, namespace, name, old(manifests))
      {
        var read := ReadAll(rawResources[ps[i]]);
        if read.error.Some? { return read.error, paths; }
        var cm := ConfigMap(namespace, ConfigMapName(resourceCount, name, ps[i]), read.entries);
        AddResourceConfigMapToProject(cm, ps[i]);
        resourceCount := resourceCount + 1;
      }
      return None, paths;
    }

    /** Reads the resources of one path, stopping at the first that cannot be read or is empty. */
    method ReadAll(rs: seq<Resource>) returns (r: Data)
      ensures r == ReadInto(rs, map[])
    {
      var data: map<string, string> := map[];
      for k := 0 to |rs|
        invariant ReadInto(rs, map[]) == ReadInto(rs[k..], data)
      {
        if rs[k].contents.Broken? { return Data(data, Some(ReadFailed(rs[k].name))); }
        var contents := rs[k].contents.text;
        if |contents| == 0 { return Data(data, Some(EmptyResource(rs[k].name))); }
        assert rs[k..][1..] == rs[k + 1..];
        data := data[rs[k].name := contents];
      }
      return Data(data, None);
    }

    method AddResourceConfigMapToProject(cm: ConfigMap, path: string)
      modifies this`manifests
      ensures manifests == Manifests(old(manifests).configMaps + [cm],
                                     old(manifests).references + [WorkflowResource(cm.name, path)])
    {
      manifests := Manifests(manifests.configMaps + [cm], manifests.references + [WorkflowResource(cm.name, path)]);
    }
  }

  /** The keys of a map in sorted order; the walk over the map picks keys in any order. */
  method SortPaths(raw: RawResources) returns (paths: seq<string>)
    ensures SortedPaths(paths, raw)
  {
    paths := [];
    var remaining := raw.Keys;
    while remaining != {}
      invariant remaining <= raw.Keys
      invariant forall p :: p in paths <==> p in raw.Keys - remaining
      invariant Distinct(paths)
      decreases |remaining|
    {
      var k :| k in remaining;
      ghost var walked := paths;
      assert k !in walked;
      paths := paths + [k];
      remaining := remaining - {k};
      assert forall i :: 0 <= i < |walked| ==> paths[i] == walked[i] && walked[i] in walked;
      assert forall p :: p in paths <==> p in walked || p == k;
    }
    ghost var walked := paths;
    LessIsStrictOrder();
    paths := SortSlice(paths, Less);
    forall p ensures p in paths <==> p in raw {
      assert p in paths <==> p in multiset(paths);
      assert p in walked <==> p in multiset(walked);
    }
    SortedDistinct(paths, walked);
  }

  lemma SortedDistinct(sorted: seq<string>, walked: seq<string>)
    requires Distinct(walked) && multiset(sorted) == multiset(walked) && SortedBy(Less, sorted)
    ensures forall i, j :: 0 <= i < j < |sorted| ==> Less(sorted[i], sorted[j])
  {
    PermutationDistinct(walked, sorted);
    forall i, j | 0 <= i < j < |sorted| ensures Less(sorted[i], sorted[j]) {
      LessTotal(sorted[i], sorted[j]);
      assert !Less(sorted[j], sorted[i]);
    }
  }
}

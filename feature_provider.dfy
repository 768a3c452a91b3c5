/** `BatchLibHdf5CellFeatureProvider`: per-cell feature values read from the HDF5 table
    of a site, with each (site, table group) table loaded once and then served from a
    cache. */
module FeatureProvider {
  import opened Outcomes
  import opened Text
  import opened ColumnTables
  import opened Tables

  /** A site's HDF5 file: its name and its absolute path. */
  datatype SiteFile = SiteFile(name: string, absolutePath: string)

  /** An HDF5 group as `getGroupMembers` and `isGroup` see it: its members in order, each a
      child group or a dataset. */
  datatype H5Group = H5Group(members: seq<H5Member>)
  datatype H5Member = SubGroup(name: string, group: H5Group) | DataSet(name: string)

  /** The cache key of a (site, table group) pair: the two names run together. */
  function Key(siteName: string, tableGroup: string): (k: string)
    ensures |k| == |siteName| + |tableGroup| && k[..|siteName|] == siteName && k[|siteName|..] == tableGroup
  {
    siteName + tableGroup
  }

  /** Keys do not collide while no site name contains '/' and every table group starts
      with '/', as the groups found under "/tables" do. */
  lemma KeysDistinguishPairs(site1: string, group1: string, site2: string, group2: string)
    requires '/' !in site1 && '/' !in site2
    requires |group1| > 0 && group1[0] == '/' && |group2| > 0 && group2[0] == '/'
    requires Key(site1, group1) == Key(site2, group2)
    ensures site1 == site2 && group1 == group2
  {
    var k := Key(site1, group1);
    if |site1| != |site2| {
      assert false;
    }
  }

  /** Without those conditions two pairs can share a key and so one cached table. */
  lemma KeysCanCollide()
    ensures Key("a/b", "/t") == Key("a", "/b/t")
  {
  }

  /** Whether a group has at least one child group. */
  predicate HasChildGroup(g: H5Group)
  {
    exists i :: 0 <= i < |g.members| && g.members[i].SubGroup?
  }

  /** The groups `setLeafGroups(reader, path)` appends for the group `g` at `path`: the
      group itself when it has no child group, otherwise the leaf groups of its child
      groups, depth first in member order. */
  function LeafGroups(path: string, g: H5Group): seq<string>
    decreases g, 1
  {
    if !HasChildGroup(g) then [path] else ChildLeaves(path, g, |g.members|)
  }

  /** The leaf groups below the child groups among the first i members of `g`. */
  function ChildLeaves(path: string, g: H5Group, i: nat): seq<string>
    requires i <= |g.members|
    decreases g, 0, i
  {
    if i == 0 then []
    else
      var m := g.members[i - 1];
      ChildLeaves(path, g, i - 1) + (if m.SubGroup? then LeafGroups(path + "/" + m.name, m.group) else [])
  }

  /** Every group yields at least one leaf, and every leaf lies under the group's path. */
  lemma {:induction false} LeafGroupsUnderParent(path: string, g: H5Group)
    ensures |LeafGroups(path, g)| >= 1
    ensures forall e :: e in LeafGroups(path, g) ==> |path| <= |e| && e[..|path|] == path
    decreases g, 1
  {
    if HasChildGroup(g) {
      ChildLeavesUnderParent(path, g, |g.members|);
      var i :| 0 <= i < |g.members| && g.members[i].SubGroup?;
      assert |ChildLeaves(path, g, |g.members|)| >= 1;
    }
  }

  lemma {:induction false} ChildLeavesUnderParent(path: string, g: H5Group, i: nat)
    requires i <= |g.members|
    ensures forall e :: e in ChildLeaves(path, g, i) ==> |path| < |e| && e[..|path|] == path
    ensures (exists j :: 0 <= j < i && g.members[j].SubGroup?) ==> |ChildLeaves(path, g, i)| >= 1
    decreases g, 0, i
  {
    if i > 0 {
      ChildLeavesUnderParent(path, g, i - 1);
      var m := g.members[i - 1];
      if m.SubGroup? {
        var child := path + "/" + m.name;
        LeafGroupsUnderParent(child, m.group);
        forall e | e in LeafGroups(child, m.group)
          ensures |path| < |e| && e[..|path|] == path
        {
          assert e[..|child|] == child;
          assert e[..|path|] == child[..|path|];
        }
      }
    }
  }

  /** The index of the first file whose name contains `needle`, or |files|. */
  function FirstFileContaining(files: seq<SiteFile>, needle: string): (i: nat)
    ensures i <= |files|
    ensures i < |files| ==> IsSubstring(needle, files[i].name)
    ensures forall j :: 0 <= j < i ==> !IsSubstring(needle, files[j].name)
    decreases |files|
  {
    if files == [] then 0
    else if IsSubstring(needle, files[0].name) then 0
    else 1 + FirstFileContaining(files[1..], needle)
  }

  /** `getSiteFile`: the first site file whose name contains the site name with '-'
      replaced by '_'; none throws UnsupportedOperationException, and a null file list
      NullPointerException. */
  function SiteFileFor(siteFiles: Option<seq<SiteFile>>, siteName: string): (r: Result<SiteFile>)
    ensures siteFiles.None? ==> r == Err(NullPointer)
    ensures siteFiles.Some? ==> (r.Ok? <==> exists i :: 0 <= i < |siteFiles.value| && IsSubstring(ReplaceChar(siteName, '-', '_'), siteFiles.value[i].name))
    ensures r.Ok? ==> siteFiles.Some? && IsSubstring(ReplaceChar(siteName, '-', '_'), r.value.name)
    ensures r.Ok? ==> exists i :: (0 <= i < |siteFiles.value| && siteFiles.value[i] == r.value &&
      forall j :: 0 <= j < i ==> !IsSubstring(ReplaceChar(siteName, '-', '_'), siteFiles.value[j].name))
    ensures siteFiles.Some? && r.Err? ==> r.failure == Unsupported("No file not found for site: " + siteName)
  {
    match siteFiles
    case None => Err(NullPointer)
    case Some(files) =>
      var i := FirstFileContaining(files, ReplaceChar(siteName, '-', '_'));
      if i < |files| then Ok(files[i]) else Err(Unsupported("No file not found for site: " + siteName))
  }

  /** A site name written with dashes and the same name written with underscores find the
      same file. */
  lemma DashesAndUnderscoresFindSameFile(siteFiles: Option<seq<SiteFile>>, siteName: string)
    ensures SiteFileFor(siteFiles, siteName).Ok? <==> SiteFileFor(siteFiles, ReplaceChar(siteName, '-', '_')).Ok?
    ensures SiteFileFor(siteFiles, siteName).Ok? ==>
      SiteFileFor(siteFiles, siteName).value == SiteFileFor(siteFiles, ReplaceChar(siteName, '-', '_')).value
  {
    ReplaceCharIdempotent(siteName, '-', '_');
  }

  /** How the scan of the label column ends: at the first row whose label is `labelId`,
      at a label that is not a number, or at the end of the column. */
  datatype LabelScan = FoundAt(row: nat) | NotANumber | NotFound

  /** The scan of `fetchFeature` from row `from` on, each label read as
      `(int) Double.parseDouble(label)` (None when the text is not a number). */
  function ScanLabels(labels: seq<string>, labelId: int, labelOf: string -> Option<int>, from: nat): (s: LabelScan)
    requires from <= |labels|
    ensures s.FoundAt? ==> from <= s.row < |labels| && labelOf(labels[s.row]) == Some(labelId)
    ensures s.FoundAt? ==> forall j :: from <= j < s.row ==> labelOf(labels[j]).Some? && labelOf(labels[j]) != Some(labelId)
    ensures s == NotFound <==> forall j :: from <= j < |labels| ==> labelOf(labels[j]).Some? && labelOf(labels[j]) != Some(labelId)
    ensures s == NotANumber ==> exists j :: from <= j < |labels| && labelOf(labels[j]).None?
    decreases |labels| - from
  {
    if from == |labels| then NotFound
    else match labelOf(labels[from])
      case None => NotANumber
      case Some(value) => if value == labelId then FoundAt(from) else ScanLabels(labels, labelId, labelOf, from + 1)
  }

  /** The feature value `fetchFeature` returns from a loaded table: the `feature` entry of
      the first row whose "label_id" is `labelId`. A missing label column, or a missing or
      short feature column, throws as the lookups do; no such row throws
      UnsupportedOperationException. */
  function FeatureAt(columns: Columns, labelId: int, feature: string, labelOf: string -> Option<int>): (r: Result<string>)
    ensures "label_id" !in columns.cols ==> r == Err(NullPointer)
    ensures r.Ok? ==> ("label_id" in columns.cols && feature in columns.cols &&
      exists i :: 0 <= i < |columns.cols["label_id"]| && i < |columns.cols[feature]| &&
        labelOf(columns.cols["label_id"][i]) == Some(labelId) && r.value == columns.cols[feature][i])
    ensures ("label_id" in columns.cols &&
             forall j :: 0 <= j < |columns.cols["label_id"]| ==>
               labelOf(columns.cols["label_id"][j]).Some? && labelOf(columns.cols["label_id"][j]) != Some(labelId)) ==>
      r == Err(Unsupported("Feature " + feature + "not found for cell " + IntString(labelId)))
    ensures r.Ok? <==> ("label_id" in columns.cols && feature in columns.cols &&
      var scan := ScanLabels(columns.cols["label_id"], labelId, labelOf, 0);
      scan.FoundAt? && scan.row < |columns.cols[feature]|)
    ensures r.Ok? ==> (
      var scan := ScanLabels(columns.cols["label_id"], labelId, labelOf, 0);
      scan.FoundAt? && r.value == columns.cols[feature][scan.row] &&
      forall j :: 0 <= j < scan.row ==>
        labelOf(columns.cols["label_id"][j]).Some? && labelOf(columns.cols["label_id"][j]) != Some(labelId))
    ensures ("label_id" in columns.cols && ScanLabels(columns.cols["label_id"], labelId, labelOf, 0) == NotANumber) ==>
      r == Err(NumberFormat)
  {
    if "label_id" !in columns.cols then Err(NullPointer)
    else match ScanLabels(columns.cols["label_id"], labelId, labelOf, 0)
      case NotANumber => Err(NumberFormat)
      case NotFound => Err(Unsupported("Feature " + feature + "not found for cell " + IntString(labelId)))
      case FoundAt(i) =>
        if feature !in columns.cols then Err(NullPointer)
        else if i >= |columns.cols[feature]| then Err(IndexOutOfBounds)
        else Ok(columns.cols[feature][i])
  }

  /** When the labels are distinct numbers, the value returned is the one in the row of
      that label. */
  lemma FeatureOfUniqueLabel(columns: Columns, labelId: int, feature: string, labelOf: string -> Option<int>, row: int)
    requires "label_id" in columns.cols && feature in columns.cols
    requires 0 <= row < |columns.cols["label_id"]| && row < |columns.cols[feature]|
    requires labelOf(columns.cols["label_id"][row]) == Some(labelId)
    requires forall j :: 0 <= j < |columns.cols["label_id"]| && j != row ==>
      labelOf(columns.cols["label_id"][j]).Some? && labelOf(columns.cols["label_id"][j]) != Some(labelId)
    ensures FeatureAt(columns, labelId, feature, labelOf) == Ok(columns.cols[feature][row])
  {
    var scan := ScanLabels(columns.cols["label_id"], labelId, labelOf, 0);
    assert scan.FoundAt? ==> scan.row == row;
    assert scan != NotFound;
    assert scan != NotANumber;
  }

  /** The table `getColumns` serves for a (site, table group) pair: the cached one if
      there is one, else the one read from the site's file under the group, with the
      failures of finding the file and of reading the table. */
  function TableFor(cache: map<string, Columns>, siteFiles: Option<seq<SiteFile>>, siteName: string,
                    tableGroup: string, read: (string, string) -> Hdf5Table): (r: Result<Columns>)
    ensures Key(siteName, tableGroup) in cache ==> r == Ok(cache[Key(siteName, tableGroup)])
    ensures Key(siteName, tableGroup) !in cache && SiteFileFor(siteFiles, siteName).Err? ==>
      r == Err(SiteFileFor(siteFiles, siteName).failure)
    ensures Key(siteName, tableGroup) !in cache && SiteFileFor(siteFiles, siteName).Ok? ==>
      r == ColumnsOf(read(SiteFileFor(siteFiles, siteName).value.absolutePath, tableGroup))
  {
    var key := Key(siteName, tableGroup);
    if key in cache then Ok(cache[key])
    else match SiteFileFor(siteFiles, siteName)
      case Err(failure) => Err(failure)
      case Ok(file) => ColumnsOf(read(file.absolutePath, tableGroup))
  }

  /** Once a pair's table is cached, later lookups of the pair serve it whatever the files
      now hold: a second `getColumns` of a pair returns what the first one returned. */
  lemma CachedTableIsStable(cache: map<string, Columns>, siteFiles: Option<seq<SiteFile>>, siteName: string,
                            tableGroup: string, read: (string, string) -> Hdf5Table, read2: (string, string) -> Hdf5Table)
    requires TableFor(cache, siteFiles, siteName, tableGroup, read).Ok?
    ensures var t := TableFor(cache, siteFiles, siteName, tableGroup, read);
      TableFor(cache[Key(siteName, tableGroup) := t.value], siteFiles, siteName, tableGroup, read2) == t
  {
  }

  class BatchLibHdf5CellFeatureProvider {
    const plateDirectory: string
    var siteFiles: Option<seq<SiteFile>>
    var tableGroups: seq<string>
    var cache: map<string, Columns>

    /** Stores the arguments, starts an empty cache and lists the leaf table groups found
        under "/tables" in the first site's file. */
    constructor (plateDirectory: string, siteFiles: Option<seq<SiteFile>>, firstSiteTables: H5Group)
      ensures this.plateDirectory == plateDirectory && this.siteFiles == siteFiles
      ensures cache == map[]
      ensures tableGroups == LeafGroups("/tables", firstSiteTables)
    {
      this.plateDirectory := plateDirectory;
      this.siteFiles := siteFiles;
      cache := map[];
      tableGroups := [];
      new;
      SetLeafGroups("/tables", firstSiteTables);
    }

    /** `setLeafGroups`: appends the leaf groups at and below `parentGroup`. */
    method SetLeafGroups(parentGroup: string, group: H5Group)
      modifies this`tableGroups
      ensures tableGroups == old(tableGroups) + LeafGroups(parentGroup, group)
      decreases group, 1
    {
      var hasChildGroup := false;
      for i := 0 to |group.members|
        invariant hasChildGroup <==> exists j :: 0 <= j < i && group.members[j].SubGroup?
      {
        if group.members[i].SubGroup? {
          hasChildGroup := true;
        }
      }
      if !hasChildGroup {
        tableGroups := tableGroups + [parentGroup];
        return;
      }
      for i := 0 to |group.members|
        invariant tableGroups == old(tableGroups) + ChildLeaves(parentGroup, group, i)
      {
        var m := group.members[i];
        if m.SubGroup? {
          SetLeafGroups(parentGroup + "/" + m.name, m.group);
        }
      }
    }

    /** `getColumns`: the cached table of the pair if there is one; otherwise the table read
        from the site's file under `tableGroup`, which is then cached. Finding the file and
        reading the table may throw, and then nothing is cached. */
    method GetColumns(siteName: string, tableGroup: string, read: (string, string) -> Hdf5Table)
      returns (r: Result<Columns>)
      modifies this`cache
      ensures Key(siteName, tableGroup) in old(cache) ==> r == Ok(old(cache)[Key(siteName, tableGroup)]) && cache == old(cache)
      ensures Key(siteName, tableGroup) !in old(cache) && SiteFileFor(siteFiles, siteName).Err? ==>
        r == Err(SiteFileFor(siteFiles, siteName).failure)
      ensures r.Ok? ==> Key(siteName, tableGroup) in cache && cache[Key(siteName, tableGroup)] == r.value
      ensures r.Err? ==> cache == old(cache)
      ensures forall k :: k in old(cache) ==> k in cache && cache[k] == old(cache)[k]
      ensures forall k :: k in cache && k !in old(cache) ==> k == Key(siteName, tableGroup)
      ensures Key(siteName, tableGroup) !in old(cache) && SiteFileFor(siteFiles, siteName).Ok? ==>
        r == ColumnsOf(read(SiteFileFor(siteFiles, siteName).value.absolutePath, tableGroup))
      ensures r == TableFor(old(cache), siteFiles, siteName, tableGroup, read)
    {
      var key := Key(siteName, tableGroup);
      if key in cache {
        return Ok(cache[key]);
      }
      var file :- SiteFileFor(siteFiles, siteName);
      var columns :- StringColumnsFromHdf5(read(file.absolutePath, tableGroup));
      cache := cache[key := columns];
      return Ok(columns);
    }

    /** `fetchFeature`: without site files UnsupportedOperationException; otherwise the
        feature of the labelled cell in the pair's (possibly freshly loaded) table. */
    method FetchFeature(labelId: int, siteName: string, tableGroup: string, feature: string,
                        labelOf: string -> Option<int>, read: (string, string) -> Hdf5Table)
      returns (r: Result<string>)
      modifies this`cache
      ensures siteFiles.None? ==> r == Err(Unsupported("Fetching site files not yet implemented")) && cache == old(cache)
      ensures r.Ok? ==> (Key(siteName, tableGroup) in cache &&
        r == FeatureAt(cache[Key(siteName, tableGroup)], labelId, feature, labelOf))
      ensures forall k :: k in old(cache) ==> k in cache && cache[k] == old(cache)[k]
      ensures siteFiles.Some? ==> (
        var t := TableFor(old(cache), siteFiles, siteName, tableGroup, read);
        (t.Err? ==> r == Err(t.failure)) && (t.Ok? ==> r == FeatureAt(t.value, labelId, feature, labelOf)))
      ensures siteFiles.Some? && Key(siteName, tableGroup) in old(cache) ==>
        r == FeatureAt(old(cache)[Key(siteName, tableGroup)], labelId, feature, labelOf)
    {
      if siteFiles.None? {
        return Err(Unsupported("Fetching site files not yet implemented"));
      }
      var columns :- GetColumns(siteName, tableGroup, read);
      r := FeatureAt(columns, labelId, feature, labelOf);
    }

    /** `getFeatureNames`: the column names of the pair's table. */
    method GetFeatureNames(siteName: string, tableGroup: string, read: (string, string) -> Hdf5Table)
      returns (r: Result<set<string>>)
      modifies this`cache
      ensures r.Ok? ==> Key(siteName, tableGroup) in cache && r.value == cache[Key(siteName, tableGroup)].cols.Keys
      ensures forall k :: k in old(cache) ==> k in cache && cache[k] == old(cache)[k]
      ensures var t := TableFor(old(cache), siteFiles, siteName, tableGroup, read);
        (t.Err? ==> r == Err(t.failure)) && (t.Ok? ==> r == Ok(t.value.cols.Keys))
      ensures Key(siteName, tableGroup) in old(cache) ==> r == Ok(old(cache)[Key(siteName, tableGroup)].cols.Keys)
    {
      var columns :- GetColumns(siteName, tableGroup, read);
      return Ok(columns.cols.Keys);
    }
  }
}

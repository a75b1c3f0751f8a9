/** Where the model parameters are saved, and what repeated saves leave
    behind: one file per dataset, `models/saved_models/<dataset>/model.pt`,
    overwritten by every save. */
module Checkpoint {
  import opened PySemantics

  const Root := "models/saved_models/"
  const FileName := "model.pt"

  /** The directory created before saving. */
  function Directory(dataset: string): (dir: string)
    ensures |dir| == |Root| + |dataset| + 1
    ensures dir[..|Root|] == Root && dir[|dir| - 1] == '/'
    ensures dir[|Root|..|dir| - 1] == dataset
  {
    Root + dataset + "/"
  }

  /** The file the parameters are written to: the directory plus `model.pt`. */
  function PathFor(dataset: string): (p: string)
    ensures |p| == |Root| + |dataset| + 1 + |FileName|
  {
    Directory(dataset) + FileName
  }

  const Suffix := "/" + FileName

  /** Reads the dataset name back out of a checkpoint path, if it is one. */
  function DatasetOf(p: string): (r: Option<string>)
    ensures r.Some? ==> |r.value| + |Root| + |Suffix| == |p|
  {
    if |p| >= |Root| + |Suffix| && p[..|Root|] == Root && p[|p| - |Suffix|..] == Suffix
    then Some(p[|Root|..|p| - |Suffix|])
    else None
  }

  /** A checkpoint path names its dataset, and only checkpoint paths parse:
      `DatasetOf` inverts `PathFor` in both directions. */
  lemma PathRoundTrip(dataset: string, p: string)
    ensures DatasetOf(PathFor(dataset)) == Some(dataset)
    ensures DatasetOf(p) == Some(dataset) ==> p == PathFor(dataset)
  {
    var q := PathFor(dataset);
    assert q == Root + dataset + Suffix;
    assert q[..|Root|] == Root;
    assert q[|q| - |Suffix|..] == Suffix;
    assert q[|Root|..|q| - |Suffix|] == dataset;
    if DatasetOf(p) == Some(dataset) {
      assert p == p[..|Root|] + p[|Root|..|p| - |Suffix|] + p[|p| - |Suffix|..];
    }
  }

  /** Different dataset names never give the same checkpoint path string
      (names that the file system resolves to one directory are not
      distinguished here). */
  lemma PathInjective(a: string, b: string)
    requires PathFor(a) == PathFor(b)
    ensures a == b
  {
    PathRoundTrip(a, PathFor(b));
    PathRoundTrip(b, PathFor(b));
  }

  /** One call of `torch.save`: the state reached at `epoch` is written to `path`. */
  datatype Save = Save(epoch: nat, path: string)

  /** The files on disk after a sequence of saves, each file holding the
      epoch whose parameters were written to it last. */
  function Persist(disk: map<string, nat>, saves: seq<Save>): (after: map<string, nat>)
    ensures after.Keys == disk.Keys + set i | 0 <= i < |saves| :: saves[i].path
    ensures |saves| > 0 ==>
              saves[|saves| - 1].path in after && after[saves[|saves| - 1].path] == saves[|saves| - 1].epoch
    ensures forall p :: p in disk && p !in (set i | 0 <= i < |saves| :: saves[i].path) ==>
              p in after && after[p] == disk[p]
  {
    if |saves| == 0 then disk
    else
      var last := saves[|saves| - 1];
      var earlier := saves[..|saves| - 1];
      PathsStep(saves, earlier);
      Persist(disk, earlier)[last.path := last.epoch]
  }

  /** The paths of a sequence of saves: those of all but the last, plus the last one's. */
  lemma PathsStep(saves: seq<Save>, earlier: seq<Save>)
    requires |saves| > 0 && earlier == saves[..|saves| - 1]
    ensures (set i | 0 <= i < |saves| :: saves[i].path)
         == (set i | 0 <= i < |earlier| :: earlier[i].path) + {saves[|saves| - 1].path}
  {
    forall i | 0 <= i < |earlier|
      ensures earlier[i].path in (set i | 0 <= i < |saves| :: saves[i].path)
    {
      assert earlier[i] == saves[i];
    }
  }
}

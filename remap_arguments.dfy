/**
 * The `--remap INPUT OUTPUT` arguments of the command line (main.kt): the
 * pairs whose input exists become a map from input to output. Whether a
 * path exists is a question for the file system, so it is the parameter
 * `isPresent`.
 */
module RemapArguments {
  /** One `--remap` occurrence. */
  datatype RemapPair = RemapPair(input: string, output: string)

  /** `filter { Files.exists(it[0]) }.associate { it[0] to it[1] }`: later pairs overwrite earlier ones. */
  function RemapTargets(pairs: seq<RemapPair>, isPresent: string -> bool): (r: map<string, string>)
    ensures forall path :: path in r ==> isPresent(path)
    ensures forall p :: p in pairs && isPresent(p.input) ==> p.input in r
  {
    if pairs == [] then map[]
    else
      var earlier := RemapTargets(pairs[..|pairs| - 1], isPresent);
      var last := pairs[|pairs| - 1];
      assert pairs == pairs[..|pairs| - 1] + [last];
      if isPresent(last.input) then earlier[last.input := last.output] else earlier
  }

  /** An input is remapped exactly when it exists and some pair names it. */
  lemma {:induction false} RemapTargetsKeys(pairs: seq<RemapPair>, isPresent: string -> bool, path: string)
    ensures path in RemapTargets(pairs, isPresent) <==>
      isPresent(path) && exists i :: 0 <= i < |pairs| && pairs[i].input == path
  {
    if pairs != [] {
      var front := pairs[..|pairs| - 1];
      RemapTargetsKeys(front, isPresent, path);
      if exists i :: 0 <= i < |pairs| && pairs[i].input == path {
        var i :| 0 <= i < |pairs| && pairs[i].input == path;
        if i < |pairs| - 1 {
          assert front[i] == pairs[i];
        }
      }
      if exists i :: 0 <= i < |front| && front[i].input == path {
        var i :| 0 <= i < |front| && front[i].input == path;
        assert pairs[i] == front[i];
      }
    }
  }

  /** For an input given several times, the output of its last pair wins. */
  lemma {:induction false} LastPairWins(pairs: seq<RemapPair>, isPresent: string -> bool, i: int)
    requires 0 <= i < |pairs| && isPresent(pairs[i].input)
    requires forall j :: i < j < |pairs| ==> pairs[j].input != pairs[i].input
    ensures pairs[i].input in RemapTargets(pairs, isPresent)
    ensures RemapTargets(pairs, isPresent)[pairs[i].input] == pairs[i].output
  {
    if i < |pairs| - 1 {
      var front := pairs[..|pairs| - 1];
      assert front[i] == pairs[i];
      LastPairWins(front, isPresent, i);
    }
  }

  /** Every output in the map is the output of a pair for that input. */
  lemma {:induction false} RemapTargetsComeFromPairs(pairs: seq<RemapPair>, isPresent: string -> bool, path: string)
    requires path in RemapTargets(pairs, isPresent)
    ensures RemapPair(path, RemapTargets(pairs, isPresent)[path]) in pairs
  {
    var front := pairs[..|pairs| - 1];
    var last := pairs[|pairs| - 1];
    if !(isPresent(last.input) && last.input == path) {
      RemapTargetsComeFromPairs(front, isPresent, path);
      assert RemapPair(path, RemapTargets(front, isPresent)[path]) in front;
    }
  }
}

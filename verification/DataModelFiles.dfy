/** The merger over a file system: `filter_and_merge_xml` and the two profile-specific merges. */
module DataModelFiles {
  import opened DataModelMerge
  import opened DataModelDocuments

  const BASE_FILE := "/etc/data-model.xml"
  const GENERIC_FILE := "/etc/data-model-generic.xml"
  const STB_FILE := "/etc/data-model-stb.xml"
  const TV_FILE := "/etc/data-model-tv.xml"
  const INTERMEDIATE_FILE := "/tmp/data-model-intermediate.xml"
  const OUTPUT_FILE := "/tmp/data-model.xml"

  datatype Status = MergeSuccess | MergeFailure

  type Files = map<string, string>

  /** Opening the output truncates it even when an input is missing. */
  ghost function AfterMerge(files: Files, input1: string, input2: string, output: string, writable: set<string>): Files
  {
    if output !in writable then files
    else if input1 in files && input2 in files then files[output := Merged(files[input1], files[input2])]
    else files[output := ""]
  }

  ghost predicate MergeWorks(files: Files, input1: string, input2: string, output: string, writable: set<string>)
  {
    input1 in files && input2 in files && output in writable
  }

  ghost function AfterRename(files: Files, from: string, to: string, writable: set<string>): Files
  {
    if from in files && to in writable then files[to := files[from]] - {from} else files
  }

  function ProfileFile(profile: string): string
  {
    if profile == "TV" then TV_FILE else STB_FILE
  }

  predicate HasProfile(profile: string) { profile == "TV" || profile == "STB" }

  /** RDKV: the base and the generic file into an intermediate one, then the profile's file or a rename. */
  ghost function AfterRdkv(files: Files, profile: string, writable: set<string>): (r: (Files, Status))
  {
    var mid := AfterMerge(files, GENERIC_FILE, BASE_FILE, INTERMEDIATE_FILE, writable);
    if !MergeWorks(files, GENERIC_FILE, BASE_FILE, INTERMEDIATE_FILE, writable) then (mid, MergeFailure)
    else if HasProfile(profile) then
      (AfterMerge(mid, ProfileFile(profile), INTERMEDIATE_FILE, OUTPUT_FILE, writable),
       if MergeWorks(mid, ProfileFile(profile), INTERMEDIATE_FILE, OUTPUT_FILE, writable) then MergeSuccess
       else MergeFailure)
    else
      (AfterRename(mid, INTERMEDIATE_FILE, OUTPUT_FILE, writable),
       if OUTPUT_FILE in writable then MergeSuccess else MergeFailure)
  }

  /** RDKE: the file of the profile and the generic one; there is no default. */
  ghost function AfterRdke(files: Files, profile: string, writable: set<string>): (r: (Files, Status))
  {
    if !HasProfile(profile) then (files, MergeFailure)
    else
      (AfterMerge(files, GENERIC_FILE, ProfileFile(profile), OUTPUT_FILE, writable),
       if MergeWorks(files, GENERIC_FILE, ProfileFile(profile), OUTPUT_FILE, writable) then MergeSuccess
       else MergeFailure)
  }

  // ----- what the merges leave in the output file -----

  ghost predicate Holds(files: Files, name: string, d: Document)
  {
    name in files && files[name] == Bytes(d) && IsDocument(d)
  }

  /**
  With a profile, one document: the base's prologue, the bodies of base, generic and the
  profile's own file in order, the profile's closers. Everything else is left alone.
  */
  lemma RdkvBuildsOneDocument(files: Files, profile: string, writable: set<string>,
                              base: Document, generic: Document, special: Document)
    requires Holds(files, "/etc/data-model.xml", base) && Holds(files, "/etc/data-model-generic.xml", generic)
    requires || (profile == "TV" && Holds(files, "/etc/data-model-tv.xml", special))
             || (profile == "STB" && Holds(files, "/etc/data-model-stb.xml", special))
    requires "/tmp/data-model-intermediate.xml" in writable && "/tmp/data-model.xml" in writable
    ensures var (files', status) := AfterRdkv(files, profile, writable);
            && status == MergeSuccess
            && Holds(files', "/tmp/data-model.xml",
                     Document(base.prologue, base.body + generic.body + special.body,
                              special.closeModel, special.closeDocument))
            && (forall f :: f in files && f != INTERMEDIATE_FILE && f != OUTPUT_FILE ==>
                f in files' && files'[f] == files[f])
  {
    hide Merged;
    hide IsDocument;
    hide Bytes;
    MergeIsJoin(generic, base);
    MergeIsJoin(special, Join(generic, base));
  }

  /** With any other, the base and the generic file, and the intermediate file is gone. */
  lemma RdkvDefault(files: Files, profile: string, writable: set<string>, base: Document, generic: Document)
    requires Holds(files, "/etc/data-model.xml", base) && Holds(files, "/etc/data-model-generic.xml", generic)
    requires profile != "TV" && profile != "STB"
    requires "/tmp/data-model-intermediate.xml" in writable && "/tmp/data-model.xml" in writable
    ensures var (files', status) := AfterRdkv(files, profile, writable);
            && status == MergeSuccess && INTERMEDIATE_FILE !in files'
            && Holds(files', "/tmp/data-model.xml",
                     Document(base.prologue, base.body + generic.body, generic.closeModel, generic.closeDocument))
  {
    hide Merged;
    hide IsDocument;
    hide Bytes;
    MergeIsJoin(generic, base);
  }

  /** Success is exactly every input present, the one of the profile among them, and both outputs writable. */
  lemma RdkvStatus(files: Files, profile: string, writable: set<string>)
    ensures AfterRdkv(files, profile, writable).1 == MergeSuccess <==>
            && BASE_FILE in files && GENERIC_FILE in files && INTERMEDIATE_FILE in writable && OUTPUT_FILE in writable
            && (profile == "TV" ==> TV_FILE in files) && (profile == "STB" ==> STB_FILE in files)
  {
    hide Merged;
  }

  /** RDKE: the profile's prologue, its body and then the generic one, the generic closers. */
  lemma RdkeBuildsOneDocument(files: Files, profile: string, writable: set<string>, generic: Document,
                              special: Document)
    requires Holds(files, "/etc/data-model-generic.xml", generic) && "/tmp/data-model.xml" in writable
    requires || (profile == "TV" && Holds(files, "/etc/data-model-tv.xml", special))
             || (profile == "STB" && Holds(files, "/etc/data-model-stb.xml", special))
    ensures var (files', status) := AfterRdke(files, profile, writable);
            && status == MergeSuccess
            && Holds(files', "/tmp/data-model.xml",
                     Document(special.prologue, special.body + generic.body, generic.closeModel, generic.closeDocument))
            && (forall f :: f in files && f != OUTPUT_FILE ==> f in files' && files'[f] == files[f])
  {
    hide Merged;
    hide IsDocument;
    hide Bytes;
    MergeIsJoin(generic, special);
  }

  /** And there is nothing but failure for any other profile. */
  lemma RdkeRefuses(files: Files, profile: string, writable: set<string>)
    ensures profile != "TV" && profile != "STB" ==> AfterRdke(files, profile, writable) == (files, MergeFailure)
  {
  }

  class FileSystem {
    var files: Files
    const writable: set<string>

    constructor (files: Files, writable: set<string>)
      ensures this.files == files && this.writable == writable
    {
      this.files, this.writable := files, writable;
    }

    /** `filter_and_merge_xml`. */
    method FilterAndMerge(input1: string, input2: string, output: string) returns (ok: bool)
      requires output != input1 && output != input2
      modifies this
      ensures files == AfterMerge(old(files), input1, input2, output, writable)
      ensures ok <==> MergeWorks(old(files), input1, input2, output, writable)
      ensures ok <==> input1 in old(files) && input2 in old(files) && output in writable
      ensures output !in writable ==> files == old(files)
      ensures output in writable && !ok ==> files == old(files)[output := ""]
      ensures ok ==> files == old(files)[output := Merged(old(files)[input1], old(files)[input2])]
    {
      hide WithoutClosers;
      hide WithoutHeaders;
      hide Lines;
      var found1, found2 := input1 in files, input2 in files;
      if output in writable {
        files := files[output := ""];
      }
      if !found1 || !found2 || output !in writable {
        return false;
      }
      var text := CopyWithoutClosers(Lines(files[input2]));
      text := CopyWithoutHeaders(Lines(files[input1]), text);
      files := files[output := text];
      return true;
    }

    method Rename(from: string, to: string) returns (ok: bool)
      requires from != to
      modifies this
      ensures files == AfterRename(old(files), from, to, writable)
      ensures ok <==> from in old(files) && to in writable
    {
      ok := from in files && to in writable;
      if ok {
        files := files[to := files[from]] - {from};
      }
    }

    method MergeRdkv(profile: string) returns (r: Status)
      modifies this
      ensures (files, r) == AfterRdkv(old(files), profile, writable)
    {
      hide Merged;
      var ok := FilterAndMerge(GENERIC_FILE, BASE_FILE, INTERMEDIATE_FILE);
      if !ok {
        return MergeFailure;
      }
      if profile == "TV" {
        ok := FilterAndMerge(TV_FILE, INTERMEDIATE_FILE, OUTPUT_FILE);
      } else if profile == "STB" {
        ok := FilterAndMerge(STB_FILE, INTERMEDIATE_FILE, OUTPUT_FILE);
      } else {
        ok := Rename(INTERMEDIATE_FILE, OUTPUT_FILE);
      }
      r := if ok then MergeSuccess else MergeFailure;
    }

    method MergeRdke(profile: string) returns (r: Status)
      modifies this
      ensures (files, r) == AfterRdke(old(files), profile, writable)
    {
      hide Merged;
      var ok;
      if profile == "TV" {
        ok := FilterAndMerge(GENERIC_FILE, TV_FILE, OUTPUT_FILE);
      } else if profile == "STB" {
        ok := FilterAndMerge(GENERIC_FILE, STB_FILE, OUTPUT_FILE);
      } else {
        return MergeFailure;
      }
      r := if ok then MergeSuccess else MergeFailure;
    }
  }
}

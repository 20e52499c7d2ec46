/**
 * The instrumentation image builder of tracer.c: create_tmpfile_from_image,
 * do_link and the order of the calls in bpf_create.
 *
 * The temporary directory is a FileSystem object whose files and open
 * descriptors the methods change; every libc and libbpf call is an injected
 * outcome. mkstemp and tmpnam are not modelled: their fresh names are
 * parameters, required to be unused.
 */
module Link {
  import opened Images

  type Path = string

  /** Which step of create_tmpfile_from_image fails: strdup, mkstemp or write. */
  datatype TmpfileFaults = TmpfileFaults(strdupFails: bool, mkstempFails: bool, writeFails: bool)
  {
    predicate Ok() { !strdupFails && !mkstempFails && !writeFails }
  }

  /**
   * The outcomes do_link depends on: the two temp files, whether
   * bpf_linker__new returns NULL, and what bpf_linker__add_file (target,
   * then module) and bpf_linker__finalize return; the source treats only -1
   * as failure.
   */
  datatype LinkFaults = LinkFaults(
    target: TmpfileFaults,
    modImage: TmpfileFaults,
    linkerNewFails: bool,
    addTargetRc: int,
    addModuleRc: int,
    finalizeRc: int)
  {
    predicate LinkerOk() { addTargetRc != -1 && addModuleRc != -1 && finalizeRc != -1 }
    predicate NoFault() { target.Ok() && modImage.Ok() && !linkerNewFails && LinkerOk() }
  }

  /**
   * What a do_link returns (rc), whether it set *namep (named), and whether
   * the linker's output file is left in the file system (outputLeft).
   */
  datatype LinkStatus = LinkStatus(rc: int, named: bool, outputLeft: bool)

  /**
   * do_link as written. When bpf_linker__new fails, error still holds the 0
   * of the second create_tmpfile_from_image, so it returns 0 without a name.
   * When a linker call fails after bpf_linker__new has created the output
   * file, bpf_linker__free closes that file but nothing unlinks it.
   */
  function AsWrittenStatus(f: LinkFaults): (r: LinkStatus)
    ensures r.rc == 0 || r.rc == -1
    ensures r.named ==> r.rc == 0
    ensures r.rc == 0 && r.named <==> f.NoFault()
    ensures !(f.target.Ok() && f.modImage.Ok() && f.linkerNewFails) ==>
      r.rc == DoLinkStatus(f).rc && r.named == DoLinkStatus(f).named
    ensures r.rc == 0 && !r.named <==> f.target.Ok() && f.modImage.Ok() && f.linkerNewFails
    ensures r.outputLeft <==> f.target.Ok() && f.modImage.Ok() && !f.linkerNewFails
  {
    if !f.target.Ok() || !f.modImage.Ok() then LinkStatus(-1, false, false)
    else if f.linkerNewFails then LinkStatus(0, false, false)
    else if !f.LinkerOk() then LinkStatus(-1, false, true)
    else LinkStatus(0, true, true)
  }

  /**
   * do_link as intended: 0 and a name exactly when every step succeeds, and
   * the output file outlives the call only when it is handed to the caller.
   */
  function DoLinkStatus(f: LinkFaults): (r: LinkStatus)
    ensures r.rc == 0 || r.rc == -1
    ensures r.rc == 0 <==> f.NoFault()
    ensures r.named <==> r.rc == 0
    ensures r.outputLeft <==> r.named
  {
    if f.NoFault() then LinkStatus(0, true, true) else LinkStatus(-1, false, false)
  }

  /**
   * The finding: with both temp files written and bpf_linker__new failing,
   * do_link as written reports success and leaves *namep unset, where the
   * intended do_link reports failure.
   */
  lemma AsWrittenLinkerNewFailureReportsSuccess(f: LinkFaults)
    requires f.target.Ok() && f.modImage.Ok() && f.linkerNewFails
    ensures AsWrittenStatus(f) == LinkStatus(0, false, false)
    ensures DoLinkStatus(f).rc == -1
  {
  }

  /**
   * The finding: a failing bpf_linker__add_file or bpf_linker__finalize
   * leaves the linker's output file behind in do_link as written, and not
   * in the intended do_link.
   */
  lemma AsWrittenLinkFailureLeavesOutput(f: LinkFaults)
    requires f.target.Ok() && f.modImage.Ok() && !f.linkerNewFails && !f.LinkerOk()
    ensures AsWrittenStatus(f) == LinkStatus(-1, false, true)
    ensures !DoLinkStatus(f).outputLeft
  {
  }

  /** The temporary directory: the names that exist and those this process holds open. */
  class FileSystem {
    var files: set<Path>
    var open: set<Path>

    ghost predicate Valid()
      reads this
    {
      open <= files
    }

    /**
     * create_tmpfile_from_image with the name mkstemp picks as tmpl. On
     * success the file exists and is open; on any failure, including a
     * failed write, no file is left and no descriptor is open.
     */
    method CreateTmpfileFromImage(f: TmpfileFaults, tmpl: Path) returns (rc: int, name: Path)
      requires Valid() && tmpl !in files
      modifies this
      ensures Valid()
      ensures rc == 0 || rc == -1
      ensures rc == 0 <==> f.Ok()
      ensures rc == 0 ==> name == tmpl && files == old(files) + {tmpl} && open == old(open) + {tmpl}
      ensures rc == -1 ==> files == old(files) && open == old(open)
    {
      name := "";
      if f.strdupFails {
        return -1, name;
      }
      if f.mkstempFails {
        return -1, name;
      }
      files := files + {tmpl};
      open := open + {tmpl};
      if f.writeFails {
        // err0: close(fd); unlink(name)
        open := open - {tmpl};
        files := files - {tmpl};
        return -1, name;
      }
      return 0, tmpl;
    }

    /**
     * do_link as written, with the goto ladder err2 -> err1 -> err0. The
     * linker's output is the name tmpnam returns (out); bpf_linker__new is
     * taken to create that file and hold it open until bpf_linker__free.
     * Both image temp files are closed and unlinked on every path (the
     * order of the unlinks is not modelled: files is a set).
     */
    method DoLinkAsWritten(f: LinkFaults, targetTmp: Path, moduleTmp: Path, out: Path)
      returns (rc: int, name: Path, named: bool)
      requires Valid()
      requires targetTmp !in files && moduleTmp !in files && out !in files
      requires targetTmp != moduleTmp && out != targetTmp && out != moduleTmp
      modifies this
      ensures Valid()
      ensures open == old(open)
      ensures targetTmp !in files && moduleTmp !in files
      ensures files == old(files) + (if AsWrittenStatus(f).outputLeft then {out} else {})
      ensures LinkStatus(rc, named, out in files) == AsWrittenStatus(f)
      ensures named ==> name == out
    {
      var error, targetName, moduleName;
      name, named := "", false;
      error, targetName := CreateTmpfileFromImage(f.target, targetTmp);
      if error == -1 {
        return -1, name, named;
      }
      error, moduleName := CreateTmpfileFromImage(f.modImage, moduleTmp);
      var reachErr2, reachErr1 := false, false;
      if error == -1 {
        // goto err0
      } else if f.linkerNewFails {
        // goto err1, error still 0
        reachErr1 := true;
      } else {
        reachErr2, reachErr1 := true, true;
        files := files + {out};
        open := open + {out};
        if f.addTargetRc == -1 {
          error := -1;
        } else if f.addModuleRc == -1 {
          error := -1;
        } else if f.finalizeRc == -1 {
          error := -1;
        } else {
          error := 0;
          name, named := out, true;
        }
      }
      if reachErr2 {
        // bpf_linker__free closes the output file
        open := open - {out};
      }
      if reachErr1 {
        open := open - {moduleName};
        files := files - {moduleName};
      }
      open := open - {targetName};
      files := files - {targetName};
      return error, name, named;
    }

    /**
     * do_link as intended: a failed bpf_linker__new is an error, and a
     * failed linker call also unlinks the linker's output. Every file the
     * call creates is gone afterwards except the output it hands back.
     */
    method DoLink(f: LinkFaults, targetTmp: Path, moduleTmp: Path, out: Path)
      returns (rc: int, name: Path, named: bool)
      requires Valid()
      requires targetTmp !in files && moduleTmp !in files && out !in files
      requires targetTmp != moduleTmp && out != targetTmp && out != moduleTmp
      modifies this
      ensures Valid()
      ensures open == old(open)
      ensures files == old(files) + (if named then {out} else {})
      ensures LinkStatus(rc, named, out in files) == DoLinkStatus(f)
      ensures named ==> name == out
    {
      var error, targetName, moduleName;
      name, named := "", false;
      error, targetName := CreateTmpfileFromImage(f.target, targetTmp);
      if error == -1 {
        return -1, name, named;
      }
      error, moduleName := CreateTmpfileFromImage(f.modImage, moduleTmp);
      var reachErr2, reachErr1 := false, false;
      if error == -1 {
        // goto err0
      } else if f.linkerNewFails {
        error := -1;
        reachErr1 := true;
      } else {
        reachErr2, reachErr1 := true, true;
        files := files + {out};
        open := open + {out};
        if f.addTargetRc == -1 || f.addModuleRc == -1 || f.finalizeRc == -1 {
          error := -1;
        } else {
          error := 0;
          name, named := out, true;
        }
      }
      if reachErr2 {
        open := open - {out};
        if error == -1 {
          files := files - {out};
        }
      }
      if reachErr1 {
        open := open - {moduleName};
        files := files - {moduleName};
      }
      open := open - {targetName};
      files := files - {targetName};
      return error, name, named;
    }
  }

  // ---------------------------------------------------------------------
  // bpf_create

  /** The calls bpf_create makes that touch files or the kernel, in order. */
  datatype Step =
    | LinkImages(target: Image, modImage: Image)   // do_link
    | OpenObject                                 // bpf_object__open
    | UnlinkOutput                               // unlink(name)
    | InitTarget                                 // ftrace_set_init_target
    | LoadObject                                 // bpf_object__load
    | UpdateConfig                               // bpf_map_update_elem on "config"

  /**
   * The outcomes bpf_create depends on: the backend string, whether a script
   * is given and what script_get_program returns, the link, whether
   * bpf_object__open returns an object, and what ftrace_set_init_target,
   * bpf_object__load and bpf_map_update_elem return.
   */
  datatype CreateEnv = CreateEnv(
    backend: string,
    hasScript: bool,
    scriptRc: int,
    link: LinkFaults,
    openOk: bool,
    initTargetRc: int,
    loadRc: int,
    mapRc: int)

  datatype CreateResult = CreateResult(rc: int, steps: seq<Step>)

  /** The module image: the script's program, or the built-in no-op module. */
  function ModuleImage(e: CreateEnv): Image
  {
    if e.hasScript then ScriptImage else GetDefaultModuleImage()
  }

  /** Every call of a successful bpf_create, in the order it makes them. */
  function FullOrder(e: CreateEnv): seq<Step>
    requires GetTargetImage(e.backend).Some?
  {
    [LinkImages(GetTargetImage(e.backend).value, ModuleImage(e)), OpenObject, UnlinkOutput]
    + (if e.backend == "ftrace" then [InitTarget] else [])
    + [LoadObject, UpdateConfig]
  }

  /** The step s of bpf_create succeeds: its call does not return the error bpf_create tests for. */
  predicate StepOk(e: CreateEnv, s: Step)
  {
    match s
    case LinkImages(_, _) => DoLinkStatus(e.link).rc != -1
    case OpenObject => e.openOk
    case UnlinkOutput => true
    case InitTarget => e.initTargetRc != -1
    case LoadObject => e.loadRc != -1
    case UpdateConfig => e.mapRc != -1
  }

  /**
   * bpf_create, with the intended do_link: it returns -1 at the first call
   * that fails and makes no further call.
   */
  function BpfCreate(e: CreateEnv): (r: CreateResult)
    ensures r.rc == 0 || r.rc == -1
    ensures GetTargetImage(e.backend).None? ==> r == CreateResult(-1, [])
    ensures e.hasScript && e.scriptRc != 0 ==> r == CreateResult(-1, [])
    ensures GetTargetImage(e.backend).Some? ==> r.steps <= FullOrder(e)
    ensures r.rc == 0 <==> GetTargetImage(e.backend).Some? && r.steps == FullOrder(e) && e.mapRc != -1
    ensures r.rc == 0 <==>
      GetTargetImage(e.backend).Some? && (!e.hasScript || e.scriptRc == 0) &&
      DoLinkStatus(e.link).rc == 0 && e.openOk && (e.backend == "ftrace" ==> e.initTargetRc != -1) &&
      e.loadRc != -1 && e.mapRc != -1
    ensures forall k :: 0 <= k < |r.steps| - 1 ==> StepOk(e, r.steps[k])
    ensures r.rc == -1 && r.steps != [] ==> !StepOk(e, r.steps[|r.steps| - 1])
  {
    var target := GetTargetImage(e.backend);
    if target.None? then CreateResult(-1, [])
    else if e.hasScript && e.scriptRc != 0 then CreateResult(-1, [])
    else
      var linked := [LinkImages(target.value, ModuleImage(e))];
      if DoLinkStatus(e.link).rc == -1 then CreateResult(-1, linked)
      else if !e.openOk then CreateResult(-1, linked + [OpenObject])
      else
        var afterOpen := linked + [OpenObject, UnlinkOutput];
        var prepared := if e.backend == "ftrace" then afterOpen + [InitTarget] else afterOpen;
        if e.backend == "ftrace" && e.initTargetRc == -1 then CreateResult(-1, prepared)
        else if e.loadRc == -1 then CreateResult(-1, prepared + [LoadObject])
        else CreateResult(if e.mapRc == -1 then -1 else 0, prepared + [LoadObject, UpdateConfig])
  }

  /**
   * The init-target pass runs only for the ftrace backend, after the object
   * is opened and before it is loaded.
   */
  lemma InitTargetOnlyForFtrace(e: CreateEnv)
    ensures InitTarget in BpfCreate(e).steps ==> e.backend == "ftrace"
    ensures var s := BpfCreate(e).steps;
      forall k, l | 0 <= k < l < |s| && s[l] == InitTarget :: s[k] != LoadObject
  {
  }

  /**
   * The linked file is unlinked exactly when bpf_object__open succeeds: a
   * failed open leaves it in the temporary directory.
   */
  lemma LinkedOutputUnlinkedIffOpened(e: CreateEnv)
    requires GetTargetImage(e.backend).Some? && (!e.hasScript || e.scriptRc == 0)
    requires e.link.NoFault()
    ensures UnlinkOutput in BpfCreate(e).steps <==> e.openOk
  {
  }
}

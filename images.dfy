/**
 * The compiled-in instrumentation images of tracer.c and the backend string
 * that selects the target image.
 */
module Images {

  import opened Wrappers

  /**
   * ipft_kprobe_bpf_o, ipft_kprobe_multi_bpf_o, ipft_ftrace_bpf_o and
   * null_module_bpf_o, the byte arrays the build embeds; ScriptImage is the
   * image script_get_program hands back.
   */
  datatype Image = KprobeImage | KprobeMultiImage | FtraceImage | NullModuleImage | ScriptImage

  /** The backend names tracer.c compares against. */
  const Backends: set<string> := {"kprobe", "kprobe-multi", "ftrace"}

  /** get_target_image: None is its "Unsupported backend" return of -1. */
  function GetTargetImage(backend: string): (r: Option<Image>)
    ensures r.Some? <==> backend in Backends
    ensures r.Some? ==> r.value != NullModuleImage && r.value != ScriptImage
  {
    if backend == "kprobe" then Some(KprobeImage)
    else if backend == "kprobe-multi" then Some(KprobeMultiImage)
    else if backend == "ftrace" then Some(FtraceImage)
    else None
  }

  /** Distinct backends are linked against distinct target images. */
  lemma TargetImageInjective(b1: string, b2: string)
    requires GetTargetImage(b1).Some? && GetTargetImage(b2).Some?
    ensures GetTargetImage(b1) == GetTargetImage(b2) ==> b1 == b2
  {
  }

  /** get_default_module_image: the no-op module, used when no script is given. */
  function GetDefaultModuleImage(): (r: Image)
    ensures r !in {KprobeImage, KprobeMultiImage, FtraceImage}
  {
    NullModuleImage
  }
}

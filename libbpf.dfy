/**
 * The answers of libbpf, libc and the kernel to the calls the attach engine
 * makes. None of these libraries is part of this model: each call is an
 * oracle that succeeds or fails.
 */
module Libbpf {

  /**
   * The programs of the linked object, by the names tracer.c builds with
   * sprintf: "ipft_main%d" and "ipft_main_return%d"; any other program
   * (those of a user module) is Other.
   */
  datatype ProgName = Main(pos: nat) | MainReturn(pos: nat) | Other(name: string)

  /** BPF_TRACE_FENTRY and BPF_TRACE_FEXIT. */
  datatype Hook = Entry | Exit

  /**
   * hasProg:      bpf_object__find_program_by_name(t->bpf, name) != NULL
   * kprobeAttach: bpf_program__attach_kprobe(prog, false, sym) != NULL
   * callocOk:     the calloc of attach_kprobe_multi at that position != NULL
   * multiAttach:  libbpf_get_error(bpf_program__attach_kprobe_multi_opts(...)) == 0 at that position
   * btfFdOk:      bpf_object__btf_fd(t->bpf) >= 0
   * progLoad:     the descriptor bpf_prog_load returns for the symbol's entry or exit program
   * tpOpen:       bpf_raw_tracepoint_open(NULL, fd) >= 0
   */
  datatype Bpf = Bpf(
    hasProg: ProgName -> bool,
    kprobeAttach: string -> bool,
    callocOk: nat -> bool,
    multiAttach: nat -> bool,
    btfFdOk: bool,
    progLoad: (string, Hook) -> int,
    tpOpen: int -> bool)
}

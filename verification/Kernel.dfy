/** The data the kernel shares with the lord: machine integers, messages and
    the slots of the shoot area. */
module Kernel {
  const TWO16 := 0x1_0000
  const TWO32 := 0x1_0000_0000
  const TWO64 := 0x1_0000_0000_0000_0000

  type u16 = x: int | 0 <= x < TWO16
  type u32 = x: int | 0 <= x < TWO32
  type u64 = x: int | 0 <= x < TWO64

  const MSG_TASK_RUNNABLE := 1
  const MSG_TASK_BLOCKED := 2
  const MSG_TASK_NEW := 3
  const MSG_TASK_DEAD := 4
  const MSG_TASK_PREEMPT := 5
  const MSG_TASK_NEW_BLOCKED := 6
  const MSG_TASK_COS_PREEMPT := 7

  const MQ_DATA_SIZE := 511
  const SHOOT_AREA_SIZE := 511
  const SA_RIGHT := 0

  datatype Msg = Msg(pid: u16, kind: u16, seqNo: u32)

  datatype ShootArg = ShootArg(pid: u32, info: u32)

  /** One entry of the lord's list of picks: run `arg.pid` on `cpu`. */
  datatype Shot = Shot(cpu: int, arg: ShootArg)

  /** What the `shoot_task` system call does, chosen by the kernel: fail as a whole and
      write nothing, or succeed and write any `info` words on CPUs of the mask. */
  datatype Verdict = Failed | Replied(info: map<int, u32>)
}

// The enumerations of open-coroutine-core/src/constants.rs. Schedulable coroutines yield and
// return the unit value, so the value fields of `Suspend`, `SystemCall` and `Complete` are dropped.
module Constants {

  datatype Option<+T> = None | Some(value: T)

  /** The hooked system calls of a Linux build. */
  datatype Syscall =
    | Sleep | Usleep | Nanosleep | Poll | Select
    | Accept4 | EpollCtl | EpollWait | IoUringEnter
    | Recv | Recvfrom | Read | Pread | Readv | Preadv | Recvmsg
    | Connect | Listen | Accept | Shutdown | Close | Socket
    | Send | Sendto | Write | Pwrite | Writev | Pwritev | Sendmsg
    | Fsync | Renameat | Renameat2 | Mkdirat | Openat

  datatype SyscallState =
    | Computing
    | Suspend(until: nat)
    | Calling(inner: Syscall)
    | Timeout
    | Finished

  datatype CoroutineState =
    | Created
    | Ready
    | Running
    | Suspended(timestamp: nat)
    | SystemCall(call: Syscall, sub: SyscallState)
    | Complete
    | Error(message: string)

  datatype PoolState = PoolCreated | PoolRunning | Stopping(threaded: bool) | Stopped
}

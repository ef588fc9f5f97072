/** The two ends of a channel, as one of them sees it, and values held for both. */
module Sides {

  datatype Option<+T> = None | Some(value: T)

  datatype Side = Local | Remote {
    function Other(): Side {
      if Local? then Remote else Local
    }
  }

  /** A C array indexed by `enum side`. */
  datatype Pair<+T> = Pair(local: T, remote: T) {
    function At(s: Side): T {
      if s.Local? then local else remote
    }

    function Flip(): Pair<T> {
      Pair(remote, local)
    }
  }

  function With<T>(p: Pair<T>, s: Side, t: T): Pair<T> {
    if s.Local? then Pair(t, p.remote) else Pair(p.local, t)
  }
}

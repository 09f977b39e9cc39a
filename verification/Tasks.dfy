/** A scheduled task (pkg/scheduler/interface.go): fixed name, priority and interval,
  and the mutable time of its next run. */
module Tasks {
  type Time = int

  class Task {
    const name: string
    const priority: int
    const interval: int
    var nextRun: Time

    constructor (name: string, priority: int, interval: int)
      ensures this.name == name && this.priority == priority && this.interval == interval
    {
      this.name, this.priority, this.interval := name, priority, interval;
    }
  }
}

/** The states of a user task, as the scheduler and the task code share them. */
module TaskStates {
  datatype TaskState = TaskUnused | TaskReady | TaskExited | TaskDestroyed
}

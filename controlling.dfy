/**
 * The `Controlling` task (src/task_impl/controlling/mod.rs): a
 * synchronization dependent that claims no node and is always satisfied.
 */
module TaskControlling {
  import opened SyncNodes

  class Controlling {
    const name: string
    var submittedNodeList: seq<string>

    /** The struct literal: both fields are public. */
    constructor (name: string, submittedNodeList: seq<string>)
      ensures this.name == name && this.submittedNodeList == submittedNodeList
    {
      this.name := name;
      this.submittedNodeList := submittedNodeList;
    }

    /** `name`: the stored name. */
    function Name(): (r: string)
      ensures r == name
    {
      name
    }

    /** `push_submitted_node_list`: appends exactly the given name. */
    method PushSubmittedNodeList(name: string)
      modifies this
      ensures submittedNodeList == old(submittedNodeList) + [name]
    {
      submittedNodeList := submittedNodeList + [name];
    }

    /** `submit_node`: no node is ever taken. */
    function SubmitNode(node: NodeDecl): (r: SubmissionResult)
      ensures r == NotFound
    {
      NotFound
    }

    /** `values_filled`: nothing is needed, so it always holds. */
    function ValuesFilled(): (r: bool)
      ensures r
    {
      true
    }
  }
}

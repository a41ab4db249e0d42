/**
 * `MainViewModel` (viewmodel/MainViewModel.kt): the session state that
 * NetworkManager reads and updates. Each `MutableLiveData` becomes a plain
 * field, written synchronously.
 */
module ViewModel {
  import opened Lists

  /** The parts of the view model the connection logic changes. */
  datatype Session = Session(ipList: seq<string>, refusedList: seq<string>, isConnected: bool)

  class MainViewModel {
    var isConnected: bool
    /** The `HashSet` of endpoints, in its iteration order. */
    var ipList: seq<string>
    var refusedList: seq<string>
    var etInput: string
    var cbManualIP: bool
    var etManualIP: string

    /** A set holds no repeats; refusedList is only appended to when the address is absent. */
    ghost predicate Valid()
      reads this
    {
      NoDup(ipList) && NoDup(refusedList)
    }

    function Snapshot(): Session
      reads this
    {
      Session(ipList, refusedList, isConnected)
    }

    /** The initial values of the LiveData fields. */
    constructor ()
      ensures Valid()
      ensures Snapshot() == Session([], [], false)
      ensures etInput == "" && !cbManualIP && etManualIP == ""
    {
      isConnected := false;
      ipList := [];
      refusedList := [];
      etInput := "";
      cbManualIP := false;
      etManualIP := "";
    }
  }
}

/** The ordered table of order statuses shown by the status header. */
module OrderStatusConfig {

  /** `orderStatusInfoT`: the text shown, the back end's status value, and the bar's fill. */
  datatype StatusInfo = StatusInfo(labelText: string, value: string, progressValue: nat)

  /** `ORDER_STATUS`, in the order an order goes through. */
  const OrderStatusTable: seq<StatusInfo> := [
    StatusInfo("Placed", "placed", 0),
    StatusInfo("Awaiting Restaurant Confirmation", "paid", 25),
    StatusInfo("In Progress", "inProgress", 50),
    StatusInfo("Out for Delivery", "outForDelivery", 75),
    StatusInfo("Delivered", "delivered", 100)
  ]

  /** Five entries with these values and labels, in this order. */
  lemma TableContents()
    ensures |OrderStatusTable| == 5
    ensures OrderStatusTable[0].value == "placed" && OrderStatusTable[0].labelText == "Placed"
    ensures OrderStatusTable[1].value == "paid" && OrderStatusTable[1].labelText == "Awaiting Restaurant Confirmation"
    ensures OrderStatusTable[2].value == "inProgress" && OrderStatusTable[2].labelText == "In Progress"
    ensures OrderStatusTable[3].value == "outForDelivery" && OrderStatusTable[3].labelText == "Out for Delivery"
    ensures OrderStatusTable[4].value == "delivered" && OrderStatusTable[4].labelText == "Delivered"
  {
  }

  /** Progress rises strictly along the table from 0 to 100. */
  lemma ProgressIncreasing()
    ensures forall i, j :: 0 <= i < j < |OrderStatusTable| ==>
      OrderStatusTable[i].progressValue < OrderStatusTable[j].progressValue
    ensures forall i :: 0 <= i < |OrderStatusTable| ==> OrderStatusTable[i].progressValue <= 100
    ensures OrderStatusTable[0].progressValue == 0 && OrderStatusTable[4].progressValue == 100
  {
  }

  /** No two entries share a status value, so a lookup by value is unambiguous. */
  lemma ValuesDistinct()
    ensures forall i, j :: 0 <= i < j < |OrderStatusTable| ==>
      OrderStatusTable[i].value != OrderStatusTable[j].value
  {
    var t := OrderStatusTable;
    assert t[0].value[0] == 'p' && t[1].value[0] == 'p' && t[2].value[0] == 'i';
    assert t[3].value[0] == 'o' && t[4].value[0] == 'd';
    assert t[0].value[1] == 'l' && t[1].value[1] == 'a';
  }
}

/** The selected-edition id each view keeps (`useState<string | null>`):
    a click selects, closing the detail dialog clears. */
module Selection {
  import opened Wrappers
  import opened Supabase
  import DetailModal = MarketDetailModal

  class MarketSelection {
    var marketId: Option<Id>

    /** `useState<string | null>(null)` */
    constructor ()
      ensures marketId == None
    {
      marketId := None;
    }

    /** `setSelectedMarketId(id)`: a new selection replaces the old one. */
    method Select(id: Id)
      modifies this
      ensures marketId == Some(id)
    {
      marketId := Some(id);
    }

    /** `onClose={() => setSelectedMarketId(null)}`; closing while nothing
        is selected leaves nothing selected. */
    method Close()
      modifies this
      ensures marketId == None
    {
      marketId := None;
    }

    /** The detail dialog the view renders with `marketId={selectedMarketId}` is open. */
    function DialogOpen(): (open: bool)
      reads this
      ensures open <==> DetailModal.IdGiven(marketId)
    {
      DetailModal.DialogOpen(marketId)
    }

    /** The dialog's detail query is enabled. */
    function FetchEnabled(): (enabled: bool)
      reads this
      ensures enabled == DialogOpen()
    {
      DetailModal.QueryEnabled(marketId)
    }
  }
}

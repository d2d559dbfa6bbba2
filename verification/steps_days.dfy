/** StepsDayType: one day of activity as the app's history lists keep it. */
module StepsDays {
  import opened Bytes

  class StepsDayType {
    /** Steps walked that day. */
    var steps: int32
    /** The day as "yyyy-mm-dd". */
    var day: string
    /** Exercise time in minutes. */
    var exerciseTime: int32
    /** Distance walked in metres. */
    var distance: int32
    /** Calories burned (a C# `float`, modelled as an exact real). */
    var caloriesBurned: real

    /** Every argument is optional and defaults to zero or the empty day. */
    constructor (steps: int32 := 0, day: string := "", exerciseTime: int32 := 0, distance: int32 := 0,
                 caloriesBurned: real := 0.0)
      ensures this.steps == steps && this.day == day && this.exerciseTime == exerciseTime
      ensures this.distance == distance && this.caloriesBurned == caloriesBurned
    {
      this.steps := steps;
      this.day := day;
      this.exerciseTime := exerciseTime;
      this.distance := distance;
      this.caloriesBurned := caloriesBurned;
    }

    /**
     * SubtractStepsDay: subtracts the other day's four counters from this one's in place (the
     * integers with unchecked 32-bit wrap-around), keeps the day string, and returns this same
     * object. Each field reads the other's value before it is itself updated, so passing this
     * object as the other zeroes all four counters.
     */
    method SubtractStepsDay(other: StepsDayType) returns (r: StepsDayType)
      modifies this
      ensures r == this
      ensures steps == Wrap32(old(steps) - old(other.steps))
      ensures exerciseTime == Wrap32(old(exerciseTime) - old(other.exerciseTime))
      ensures distance == Wrap32(old(distance) - old(other.distance))
      ensures caloriesBurned == old(caloriesBurned) - old(other.caloriesBurned)
      ensures day == old(day)
      ensures other == this ==> steps == 0 && exerciseTime == 0 && distance == 0 && caloriesBurned == 0.0
    {
      steps := Wrap32(steps - other.steps);
      exerciseTime := Wrap32(exerciseTime - other.exerciseTime);
      distance := Wrap32(distance - other.distance);
      caloriesBurned := caloriesBurned - other.caloriesBurned;
      r := this;
    }
  }

  /**
   * Subtracting a day and then adding the same counters back (with the same wrap-around) restores
   * every counter, whatever the values, so the difference loses nothing.
   */
  method SubtractionReversible(a: int32, b: int32, c: int32, x: int32, y: int32, z: int32)
    returns (steps: int32, exerciseTime: int32, distance: int32)
    ensures steps == a && exerciseTime == b && distance == c
  {
    var today := new StepsDayType(a, "2017-05-02", b, c, 1.5);
    var earlier := new StepsDayType(x, "2017-05-01", y, z, 0.5);
    var diff := today.SubtractStepsDay(earlier);
    SubtractAddBack(a, x);
    SubtractAddBack(b, y);
    SubtractAddBack(c, z);
    steps := Wrap32(diff.steps + earlier.steps);
    exerciseTime := Wrap32(diff.exerciseTime + earlier.exerciseTime);
    distance := Wrap32(diff.distance + earlier.distance);
  }
}
